/**
 The sentence that is shown for a search hit (crates/host-core/src/session_search.rs), cut to
 a budget of characters, and when the match is still in it.
 */
module SearchSentence {

  import opened Lowercase
  import opened SearchExcerpt
  import opened SearchSigma
  import opened Text
  import opened Wrappers

  // ---- The first match of a part -------------------------------------------------------------------

  lemma FindIs(hay: string, needle: string, hit: nat)
    requires Hit(hay, needle, hit) && forall j :: 0 <= j < hit ==> !Hit(hay, needle, j)
    ensures Find(hay, needle) == Some(hit)
  {
  }

  /** The first hit inside a part that holds it is still the first. */
  lemma FirstHitInside(pre: string, mid: string, post: string, needle: string, hit: nat)
    requires Find(pre + mid + post, needle) == Some(hit) && |pre| <= hit && hit + |needle| <= |pre| + |mid|
    ensures Find(mid, needle) == Some(hit - |pre|)
  {
    HitInside(pre, mid, post, needle, hit);
    forall j | 0 <= j < hit - |pre|
      ensures !Hit(mid, needle, j)
    {
      HitInside(pre, mid, post, needle, j + |pre|);
    }
    FindIs(mid, needle, hit - |pre|);
  }

  lemma CharInside(fold: Fold, text: string, a: nat, b: nat, offset: nat, part: string, at: nat)
    requires Nonempty(fold) && a <= b <= |text| && part == text[a..b]
    requires offset == Offset(fold, text, a) + at && offset < Offset(fold, text, b)
    requires offset < FoldedLength(fold, text)
    ensures at < FoldedLength(fold, part) && CharAt(fold, part, at) == CharAt(fold, text, offset) - a
  {
    FoldedPart(fold, text, a, b, b - a);
    var i := CharAt(fold, part, at);
    FoldedPart(fold, text, a, b, i);
    FoldedPart(fold, text, a, b, i + 1);
    OneChar(fold, text, offset, a + i, CharAt(fold, text, offset));
  }

  lemma RangeOfHit(fold: Fold, text: string, needle: string, hit: nat, last: nat)
    requires needle != "" && Find(Folded(fold, text), needle) == Some(hit)
    requires last == hit + |needle| - 1 && last < FoldedLength(fold, text)
    ensures NeedleRange(fold, text, needle) == Some(Between(fold, text, hit, last))
  {
  }

  lemma FoundInside(
    fold: Fold, text: string, needle: string, a: nat, b: nat, part: string, hit: nat, at: nat)
    requires a <= b <= |text| && part == text[a..b] && Find(Folded(fold, text), needle) == Some(hit)
    requires at == hit - Offset(fold, text, a) && hit + |needle| <= Offset(fold, text, b)
    ensures Find(Folded(fold, part), needle) == Some(at)
  {
    FoldedInside(fold, text, a, b);
    FoldedPart(fold, text, a, b, b - a);
    OffsetIsLength(fold, part, |part|);
    FirstHitInside(FoldTo(fold, text, a), Folded(fold, part), FoldPart(fold, text, b, |text|), needle, hit);
  }

  lemma BetweenInside(fold: Fold, text: string, a: nat, b: nat, part: string, hit: nat, last: nat, at: nat, to: nat)
    requires Nonempty(fold) && a <= b <= |text| && part == text[a..b]
    requires hit == Offset(fold, text, a) + at && last == Offset(fold, text, a) + to && hit <= last
    requires last < Offset(fold, text, b) && last < FoldedLength(fold, text)
    ensures at < FoldedLength(fold, part) && to < FoldedLength(fold, part)
    ensures Between(fold, part, at, to).start == Between(fold, text, hit, last).start - a
    ensures Between(fold, part, at, to).end == Between(fold, text, hit, last).end - a
  {
    CharInside(fold, text, a, b, hit, part, at);
    CharInside(fold, text, a, b, last, part, to);
  }

  /** A part of the folded text that holds the range has the same range, moved. */
  lemma NeedleInside(fold: Fold, text: string, needle: string, r: Range, a: nat, b: nat, part: string)
    requires Nonempty(fold) && NeedleRange(fold, text, needle) == Some(r)
    requires a <= r.start < r.end <= b <= |text| && part == text[a..b]
    ensures NeedleRange(fold, part, needle) == Some(Range(r.start - a, r.end - a))
  {
    var hit, last := HitOf(fold, text, needle, r);
    OffsetsGrow(fold, text, a, r.start);
    OffsetsGrow(fold, text, r.end, b);
    var base := Offset(fold, text, a);
    var at, to := hit - base, last - base;
    FoundInside(fold, text, needle, a, b, part, hit, at);
    BetweenInside(fold, text, a, b, part, hit, last, at, to);
    RangeOfHit(fold, part, needle, at, to);
  }

  lemma FindExtends(mid: string, post: string, needle: string, hit: nat)
    requires Find(mid, needle) == Some(hit)
    ensures Find(mid + post, needle) == Some(hit)
  {
    assert mid + post == "" + mid + post;
    HitInside("", mid, post, needle, hit);
    forall j | 0 <= j < hit
      ensures !Hit(mid + post, needle, j)
    {
      HitInside("", mid, post, needle, j);
    }
    FindIs(mid + post, needle, hit);
  }

  /** A text has the range of its beginning. */
  lemma NeedleExtends(fold: Fold, text: string, needle: string, n: nat, part: string, r: Range)
    requires Nonempty(fold) && n <= |text| && part == text[0..n] && NeedleRange(fold, part, needle) == Some(r)
    ensures NeedleRange(fold, text, needle) == Some(r)
  {
    var hit, last := HitOf(fold, part, needle, r);
    FoldedInside(fold, text, 0, n);
    assert Folded(fold, text) == Folded(fold, part) + FoldPart(fold, text, n, |text|);
    FindExtends(Folded(fold, part), FoldPart(fold, text, n, |text|), needle, hit);
    FoldedPart(fold, text, 0, n, n);
    OffsetsGrow(fold, text, n, |text|);
    BetweenInside(fold, text, 0, n, part, hit, last, hit, last);
    RangeOfHit(fold, text, needle, hit, last);
  }

  /** The match is also the first one of a part that begins before it, if no sigma up to its end differs there. */
  lemma RangeInside(c: Casing, text: string, query: string, r: Range, a: nat, b: nat, part: string)
    requires Lowering(c) && MatchRange(c, text, query) == Some(r) && a <= r.start < r.end <= b <= |text|
    requires part == text[a..b] && HoldsMatch(text, Range(a, r.end), part, 0)
    requires SigmasAgree(c, text, Range(a, r.end), part, 0)
    ensures MatchRange(c, part, query) == Some(Range(r.start - a, r.end - a))
  {
    var u, v, n := WithFinals(c, text), WithFinals(c, part), r.end - a;
    SlicesAgree(c, text, Range(a, r.end), part, 0, u[a..r.end], v[0..n]);
    NeedleInside(c.fold, u, Needle(c, query), r, a, r.end, u[a..r.end]);
    NeedleExtends(c.fold, v, Needle(c, query), n, v[0..n], Range(r.start - a, r.end - a));
  }

  // ---- The excerpt ---------------------------------------------------------------------------------

  const ELLIPSIS := "\U{2026}"

  function Max(a: nat, b: nat): nat {
    if a < b then b else a
  }

  function Min(a: nat, b: nat): nat {
    if a < b then a else b
  }

  /** The characters that an excerpt shows. */
  function Window(c: Casing, text: string, query: string, budget: nat): (w: Range)
    ensures MatchRange(c, text, query).None? ==> w.start <= w.end <= |text|
  {
    var m := MatchRange(c, text, query);
    var r := if m.Some? then m.value else Range(0, 0);
    var start := if r.start >= budget / 3 then r.start - budget / 3 else 0;
    Range(start, Min(Max(start + budget, r.end), |text|))
  }

  /** How many characters the match of a text has. */
  function MatchLength(c: Casing, text: string, query: string): nat {
    var m := MatchRange(c, text, query);
    if m.Some? && m.value.start <= m.value.end then m.value.end - m.value.start else 0
  }

  /** A window of the text, marked where the text goes on. */
  function Marked(text: string, w: Range): string
    requires w.start <= w.end <= |text|
  {
    (if w.start > 0 then ELLIPSIS else "") + text[w.start..w.end] + (if w.end < |text| then ELLIPSIS else "")
  }

  lemma WindowHolds(c: Casing, text: string, query: string, budget: nat)
    requires Lowering(c)
    ensures var w := Window(c, text, query, budget);
      && w.start <= w.end <= |text|
      && w.end - w.start <= Max(budget, budget / 3 + MatchLength(c, text, query))
      && (MatchRange(c, text, query).Some? ==>
            var r := MatchRange(c, text, query).value;
            r.start < r.end <= |text| && w.start <= r.start && r.end <= w.end)
  {
    var u, needle := WithFinals(c, text), Needle(c, query);
    if MatchRange(c, text, query).Some? {
      var hit, last := HitOf(c.fold, u, needle, MatchRange(c, text, query).value);
      NeedleIsSmallest(c.fold, u, needle, hit, Range(0, 0));
    }
  }

  /** `excerpt`. */
  function Excerpt(c: Casing, text: string, query: string, budget: nat): string
    requires Lowering(c)
  {
    WindowHolds(c, text, query, budget);
    Marked(text, Window(c, text, query, budget))
  }

  /** Where the characters of a range stand in the marked window. */
  function PlaceInWindow(w: Range, r: Range): nat
    requires w.start <= r.start
  {
    (if w.start > 0 then 1 else 0) + (r.start - w.start)
  }

  lemma MarkedHolds(text: string, w: Range, r: Range)
    requires w.start <= r.start <= r.end <= w.end <= |text|
    ensures HoldsMatch(text, r, Marked(text, w), PlaceInWindow(w, r))
  {
    var shown, at, n := Marked(text, w), PlaceInWindow(w, r), r.end - r.start;
    forall k | 0 <= k < n
      ensures text[r.start..r.end][k] == shown[at..at + n][k]
    {
      assert text[w.start..w.end][r.start - w.start + k] == text[r.start + k];
    }
  }

  /** The match of a text is still a match in its excerpt, at its place. */
  ghost predicate ExcerptShows(c: Casing, text: string, query: string, budget: nat, r: Range)
    requires Lowering(c) && MatchRange(c, text, query) == Some(r)
  {
    var w, shown := Window(c, text, query, budget), Excerpt(c, text, query, budget);
    && w.start <= r.start && HoldsMatch(text, r, shown, PlaceInWindow(w, r))
    && SigmasAgree(c, text, r, shown, PlaceInWindow(w, r))
  }

  /**
   Main result: an excerpt holds the characters of the match within its bound, and the match is still
   one exactly when each of its capital sigmas ends a word in both the text and the excerpt or in neither.
   */
  lemma ExcerptKeepsMatch(c: Casing, text: string, query: string, budget: nat, r: Range)
    requires Lowering(c) && MatchRange(c, text, query) == Some(r)
    ensures r.start < r.end <= |text| && MatchLength(c, text, query) == r.end - r.start
    ensures |Excerpt(c, text, query, budget)| <= Max(budget, budget / 3 + (r.end - r.start)) + 2
    ensures var w, shown := Window(c, text, query, budget), Excerpt(c, text, query, budget);
      && w.start <= r.start && HoldsMatch(text, r, shown, PlaceInWindow(w, r))
      && Find(Lower(c, text), Needle(c, query)).Some?
      && (StandsAt(c, text, query, r, shown, PlaceInWindow(w, r)) <==> ExcerptShows(c, text, query, budget, r))
    ensures ExcerptShows(c, text, query, budget, r) ==>
      Contains(Lower(c, Excerpt(c, text, query, budget)), Needle(c, query))
  {
    var w := Window(c, text, query, budget);
    WindowHolds(c, text, query, budget);
    MarkedHolds(text, w, r);
    MatchStays(c, text, query, r, Marked(text, w), PlaceInWindow(w, r));
  }

  // ---- Trimming ----------------------------------------------------------------------------------------

  /** The characters at both ends of the range fold to the ends of the needle, so they are not blank. */
  lemma RangeEndsVisible(fold: Fold, text: string, needle: string, r: Range)
    requires Folding(fold) && NeedleRange(fold, text, needle) == Some(r) && r.start < r.end <= |text|
    requires !IsWhitespace(needle[0]) && !IsWhitespace(needle[|needle| - 1])
    ensures !IsWhitespace(text[r.start]) && !IsWhitespace(text[r.end - 1])
  {
    var hit, last := HitOf(fold, text, needle, r);
    var hay := Folded(fold, text);
    assert hay[hit..hit + |needle|] == needle;
    assert hay[hit] == needle[0] && hay[last] == needle[|needle| - 1];
    FoldedChar(fold, text, r.start, hit);
    FoldedChar(fold, text, r.end - 1, last);
  }

  lemma FoldedChar(fold: Fold, text: string, k: nat, offset: nat)
    requires Folding(fold) && k < |text| && Offset(fold, text, k) <= offset < Offset(fold, text, k + 1)
    ensures offset < |Folded(fold, text)|
    ensures !IsWhitespace(Folded(fold, text)[offset]) ==> !IsWhitespace(text[k])
  {
    FoldedInside(fold, text, k, k + 1);
    FoldedPart(fold, text, k, k + 1, 1);
    assert FoldPart(fold, text, k, k + 1) == FoldPart(fold, text, k, k) + fold(text[k]);
    assert Folded(fold, text)[offset] == fold(text[k])[offset - Offset(fold, text, k)];
  }

  lemma LeadingBlank(s: string, k: nat)
    requires k < Leading(s)
    ensures IsWhitespace(s[k])
  {
    assert s[..Leading(s)][k] == s[k];
  }

  lemma TrailingBlank(s: string, k: nat)
    requires Trailing(s) <= k < |s|
    ensures IsWhitespace(s[k])
  {
    assert s[Trailing(s)..][k - Trailing(s)] == s[k];
  }

  /** Trimming keeps everything from one visible character to another. */
  lemma TrimKeeps(s: string, first: nat, last: nat) returns (a: nat, b: nat)
    requires first <= last < |s| && !IsWhitespace(s[first]) && !IsWhitespace(s[last])
    ensures a == Leading(s) && a <= first && last < b <= |s| && Trim(s) == s[a..b]
  {
    a := Leading(s);
    if a > first {
      LeadingBlank(s, first);
    }
    var rest := s[a..];
    b := a + Trailing(rest);
    if b <= last {
      TrailingBlank(rest, last - a);
    }
  }

  lemma NeedleEndsVisible(c: Casing, query: string)
    requires Lowering(c) && Needle(c, query) != ""
    ensures var needle := Needle(c, query);
      !IsWhitespace(needle[0]) && !IsWhitespace(needle[|needle| - 1])
  {
    var t := WithFinals(c, Trim(query));
    var n := |t|;
    assert n > 0;
    WithFinalsAt(c, Trim(query), n, 0);
    WithFinalsAt(c, Trim(query), n, n - 1);
    TextEndsVisible(c.fold, t);
  }

  lemma TextEndsVisible(fold: Fold, t: string)
    requires Folding(fold) && t != "" && !IsWhitespace(t[0]) && !IsWhitespace(t[|t| - 1])
    ensures var f := Folded(fold, t); f != "" && !IsWhitespace(f[0]) && !IsWhitespace(f[|f| - 1])
  {
    var n := |t|;
    OffsetIsLength(fold, t, n);
    OffsetsGrow(fold, t, 0, 1);
    OffsetsGrow(fold, t, 1, n);
    OffsetsGrow(fold, t, n - 1, n);
    VisibleFolds(fold, t, 0, 0);
    VisibleFolds(fold, t, n - 1, FoldedLength(fold, t) - 1);
  }

  lemma VisibleFolds(fold: Fold, text: string, k: nat, offset: nat)
    requires Folding(fold) && k < |text| && Offset(fold, text, k) <= offset < Offset(fold, text, k + 1)
    requires !IsWhitespace(text[k])
    ensures offset < |Folded(fold, text)| && !IsWhitespace(Folded(fold, text)[offset])
  {
    FoldedInside(fold, text, k, k + 1);
    FoldedPart(fold, text, k, k + 1, 1);
    assert FoldPart(fold, text, k, k + 1) == FoldPart(fold, text, k, k) + fold(text[k]);
    assert Folded(fold, text)[offset] == fold(text[k])[offset - Offset(fold, text, k)];
  }

  // ---- Sentences ------------------------------------------------------------------------------------------

  predicate IsNewline(c: char) {
    c == '\n' || c == '\r' || c == '\U{2028}' || c == '\U{2029}'
  }

  predicate IsStop(c: char) {
    c == '\U{3002}' || c == '\U{FF01}' || c == '\U{FF1F}' || c == '!' || c == '?'
  }

  predicate IsClosing(c: char) {
    c == '"' || c == '\'' || c == '\U{201D}' || c == '\U{2019}' || c == '\U{300D}' || c == '\U{300F}' ||
    c == ')' || c == '\U{FF09}'
  }

  /** A character that ends a sentence or a line; a full stop only before a space, a closing mark or the end. */
  predicate IsBoundary(text: string, i: nat)
    requires i < |text|
  {
    IsNewline(text[i]) || IsStop(text[i]) ||
    (text[i] == '.' && (i + 1 == |text| || IsWhitespace(text[i + 1]) || IsClosing(text[i + 1])))
  }

  /** Behind the closing marks and further stops that belong to a sentence. */
  function SkipClosing(text: string, i: nat): (n: nat)
    requires i <= |text|
    ensures i <= n <= |text|
    decreases |text| - i
  {
    if i < |text| && (IsClosing(text[i]) || IsStop(text[i]) || text[i] == '.') then SkipClosing(text, i + 1) else i
  }

  /** Where the sentence after the boundary at `i` begins. */
  function AfterBoundary(text: string, i: nat): (n: nat)
    requires i < |text|
    ensures i < n <= |text|
  {
    if IsNewline(text[i]) then i + 1 else SkipClosing(text, i + 1)
  }

  /** All places where a sentence begins behind a boundary, scanning from `i`. */
  function Breaks(text: string, i: nat): seq<nat>
    decreases |text| - i
  {
    if i >= |text| then []
    else if IsBoundary(text, i) then [AfterBoundary(text, i)] + Breaks(text, AfterBoundary(text, i))
    else Breaks(text, i + 1)
  }

  lemma {:induction false} BreaksFollow(text: string, i: nat)
    ensures forall b :: b in Breaks(text, i) ==> i < b <= |text|
    decreases |text| - i
  {
    if i < |text| {
      BreaksFollow(text, if IsBoundary(text, i) then AfterBoundary(text, i) else i + 1);
    }
  }

  /** From the last break before the match to the first one behind it. */
  ghost predicate IsSentence(text: string, r: Range, s: Range) {
    && (s.start == 0 || s.start in Breaks(text, 0)) && s.start <= r.start
    && (s.end == |text| || s.end in Breaks(text, 0)) && r.end <= s.end
    && (forall b :: b in Breaks(text, 0) ==> b <= s.start || r.start < b)
    && (forall b :: b in Breaks(text, 0) ==> b < r.end || s.end <= b)
  }

  /** There is one such sentence. */
  lemma SentenceIsUnique(text: string, r: Range, s: Range, t: Range)
    requires r.start < r.end <= |text| && IsSentence(text, r, s) && IsSentence(text, r, t)
    ensures s == t
  {
    BreaksFollow(text, 0);
  }

  method SkipClosingMarks(text: string, i: nat) returns (n: nat)
    requires i <= |text|
    ensures n == SkipClosing(text, i)
  {
    n := i;
    while n < |text| && (IsClosing(text[n]) || IsStop(text[n]) || text[n] == '.')
      invariant i <= n <= |text| && SkipClosing(text, n) == SkipClosing(text, i)
    {
      n := n + 1;
    }
  }

  /** The loop of `sentence_excerpt`. */
  method FindSentence(text: string, r: Range) returns (s: Range)
    requires r.start < r.end <= |text|
    ensures IsSentence(text, r, s)
  {
    var start: nat := 0;
    var end := |text|;
    var index: nat := 0;
    ghost var seen: seq<nat> := [];
    while index < |text|
      invariant index <= |text| && Breaks(text, 0) == seen + Breaks(text, index)
      invariant start <= r.start && (start == 0 || start in seen)
      invariant forall b :: b in seen ==> b < r.end && b <= index && (b <= start || r.start < b)
    {
      var newline := IsNewline(text[index]);
      var boundary := IsBoundary(text, index);
      ghost var rest := Breaks(text, index);
      index := index + 1;
      if boundary {
        if !newline {
          index := SkipClosingMarks(text, index);
        }
        assert rest == [index] + Breaks(text, index);
        seen := seen + [index];
        if index <= r.start {
          start := index;
        } else if index >= r.end {
          end := index;
          break;
        }
      }
    }
    BreaksFollow(text, index);
    s := Range(start, end);
  }

  /** The sentence alone, or an excerpt of it when it is too long. */
  function Shown(c: Casing, sentence: string, query: string, budget: nat): string
    requires Lowering(c)
  {
    if |Trim(sentence)| <= budget then Trim(sentence) else Excerpt(c, Trim(sentence), query, budget)
  }

  /** Where the characters of a match stand in the trimmed sentence. */
  function PlaceInSentence(text: string, r: Range, a: nat, b: nat): int
    requires a <= b <= |text|
  {
    r.start - a - Leading(text[a..b])
  }

  /** Trimming a sentence never cuts off a character of the match. */
  lemma SentenceHolds(c: Casing, text: string, query: string, r: Range, a: nat, b: nat)
    requires Lowering(c) && MatchRange(c, text, query) == Some(r) && a <= r.start < r.end <= b <= |text|
    ensures var at := PlaceInSentence(text, r, a, b); at >= 0 && HoldsMatch(text, r, Trim(text[a..b]), at)
  {
    var u, s := WithFinals(c, text), text[a..b];
    NeedleEndsVisible(c, query);
    RangeEndsVisible(c.fold, u, Needle(c, query), r);
    WithFinalsAt(c, text, |text|, r.start);
    WithFinalsAt(c, text, |text|, r.end - 1);
    var x, y := TrimKeeps(s, r.start - a, r.end - 1 - a);
    PartHolds(text, r, a, b, x, y, s[x..y]);
  }

  lemma PartHolds(text: string, r: Range, a: nat, b: nat, x: nat, y: nat, part: string)
    requires a + x <= r.start < r.end <= a + y <= b <= |text| && part == text[a..b][x..y]
    ensures HoldsMatch(text, r, part, r.start - a - x)
  {
    var at, n := r.start - a - x, r.end - r.start;
    forall k | 0 <= k < n
      ensures text[r.start..r.end][k] == part[at..at + n][k]
    {
      assert part[at + k] == text[a..b][x + at + k] == text[a + x + at + k];
    }
  }

  /** The match survives the cut to its sentence. */
  ghost predicate SentenceShows(c: Casing, text: string, r: Range, a: nat, b: nat)
    requires a <= b <= |text|
  {
    var at := PlaceInSentence(text, r, a, b);
    at >= 0 && HoldsMatch(text, r, Trim(text[a..b]), at) && SigmasAgree(c, text, r, Trim(text[a..b]), at)
  }

  /** The match that a sentence has survives the cut to the budget. */
  ghost predicate CutShows(c: Casing, sentence: string, query: string, budget: nat)
    requires Lowering(c)
  {
    |sentence| <= budget ||
    (MatchRange(c, sentence, query).Some? &&
     ExcerptShows(c, sentence, query, budget, MatchRange(c, sentence, query).value))
  }

  /**
   Main result: whatever sentence around the match is shown, it holds the characters of the match.
   The match is still one in the sentence exactly when its capital sigmas agree there, and in what is
   shown of the sentence when those of the sentence's own match agree as well.
   */
  lemma SentenceKeepsMatch(c: Casing, text: string, query: string, budget: nat, r: Range, a: nat, b: nat)
    requires Lowering(c) && MatchRange(c, text, query) == Some(r)
    requires a <= r.start < r.end <= b <= |text|
    ensures var sentence, at := Trim(text[a..b]), PlaceInSentence(text, r, a, b);
      && at >= 0 && HoldsMatch(text, r, sentence, at) && Find(Lower(c, text), Needle(c, query)).Some?
      && (StandsAt(c, text, query, r, sentence, at) <==> SentenceShows(c, text, r, a, b))
      && (SentenceShows(c, text, r, a, b) ==> MatchRange(c, sentence, query).Some?)
      && (SentenceShows(c, text, r, a, b) && CutShows(c, sentence, query, budget) ==>
            Contains(Lower(c, Shown(c, text[a..b], query, budget)), Needle(c, query)))
      && |Shown(c, text[a..b], query, budget)|
           <= Max(budget, budget / 3 + MatchLength(c, sentence, query)) + 2
  {
    var sentence, at := Trim(text[a..b]), PlaceInSentence(text, r, a, b);
    SentenceHolds(c, text, query, r, a, b);
    MatchStays(c, text, query, r, sentence, at);
    RangeIffContained(c, sentence, query);
    if |sentence| > budget {
      ShownInExcerpt(c, sentence, query, budget);
    }
  }

  lemma ShownInExcerpt(c: Casing, sentence: string, query: string, budget: nat)
    requires Lowering(c)
    ensures |Excerpt(c, sentence, query, budget)| <= Max(budget, budget / 3 + MatchLength(c, sentence, query)) + 2
    ensures |sentence| > budget && CutShows(c, sentence, query, budget) ==>
      Contains(Lower(c, Excerpt(c, sentence, query, budget)), Needle(c, query))
  {
    WindowHolds(c, sentence, query, budget);
    if MatchRange(c, sentence, query).Some? {
      ExcerptKeepsMatch(c, sentence, query, budget, MatchRange(c, sentence, query).value);
    }
  }

  /** Main result: a query without a sigma is in whatever is shown of any sentence around its match. */
  lemma SigmaFreeIsShown(c: Casing, text: string, query: string, budget: nat, r: Range, a: nat, b: nat)
    requires Lowering(c) && MatchRange(c, text, query) == Some(r) && SigmaFree(Needle(c, query))
    requires a <= r.start < r.end <= b <= |text|
    ensures Contains(Lower(c, Shown(c, text[a..b], query, budget)), Needle(c, query))
  {
    var sentence := Trim(text[a..b]);
    SentenceKeepsMatch(c, text, query, budget, r, a, b);
    SigmaFreeAgrees(c, text, query, r, sentence, PlaceInSentence(text, r, a, b));
    if |sentence| > budget {
      var m := MatchRange(c, sentence, query).value;
      ExcerptKeepsMatch(c, sentence, query, budget, m);
      SigmaFreeAgrees(c, sentence, query, m, Excerpt(c, sentence, query, budget),
                      PlaceInWindow(Window(c, sentence, query, budget), m));
    }
  }

  /**
   What is shown comes from the sentence around the match, within its bound, and contains the query if
   the query has no sigma, or if the sigmas of the match agree at both cuts.
   */
  ghost predicate FromSentence(
    c: Casing, text: string, query: string, budget: nat, r: Range, s: Range, shown: string)
    requires Lowering(c)
  {
    && IsSentence(text, r, s) && s.start <= s.end <= |text|
    && var sentence := Trim(text[s.start..s.end]);
       && shown == Shown(c, text[s.start..s.end], query, budget)
       && |shown| <= Max(budget, budget / 3 + MatchLength(c, sentence, query)) + 2
       && (SigmaFree(Needle(c, query)) ||
           (SentenceShows(c, text, r, s.start, s.end) && CutShows(c, sentence, query, budget))
           ==> Contains(Lower(c, shown), Needle(c, query)))
  }

  lemma ShownFromSentence(c: Casing, text: string, query: string, budget: nat, r: Range, s: Range)
    requires Lowering(c) && MatchRange(c, text, query) == Some(r)
    requires IsSentence(text, r, s) && r.start < r.end <= |text|
    ensures s.start <= s.end <= |text|
    ensures FromSentence(c, text, query, budget, r, s, Shown(c, text[s.start..s.end], query, budget))
  {
    BreaksFollow(text, 0);
    SentenceKeepsMatch(c, text, query, budget, r, s.start, s.end);
    if SigmaFree(Needle(c, query)) {
      SigmaFreeIsShown(c, text, query, budget, r, s.start, s.end);
    }
  }

  /** `sentence_excerpt`. */
  method SentenceExcerpt(c: Casing, text: string, query: string, budget: nat) returns (shown: string)
    requires Lowering(c)
    ensures var m := MatchRange(c, text, query);
      && (m.None? ==> shown == Excerpt(c, text, query, budget))
      && (m.Some? ==>
            && m.value.start < m.value.end
            && exists s :: FromSentence(c, text, query, budget, m.value, s, shown))
  {
    var m := FindRange(c, text, query);
    if m.None? {
      return Excerpt(c, text, query, budget);
    }
    WindowHolds(c, text, query, budget);
    var s := FindSentence(text, m.value);
    ShownFromSentence(c, text, query, budget, m.value, s);
    var sentence := Trim(text[s.start..s.end]);
    if |sentence| <= budget {
      shown := sentence;
    } else {
      shown := Excerpt(c, sentence, query, budget);
    }
  }
}
