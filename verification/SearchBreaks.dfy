/**
 Where sentences begin (crates/host-core/src/session_search.rs), sign by sign and without a scan,
 and how much of a long one is shown around the match.
 */
module SearchBreaks {

  import opened Lowercase
  import opened SearchExcerpt
  import opened SearchSentence
  import opened Text
  import opened Wrappers

  // ---- The signs ------------------------------------------------------------------------

  const LINE_ENDS := {'\n', '\r', '\U{2028}', '\U{2029}'}
  const MARKS := {'!', '?', '\U{3002}', '\U{FF01}', '\U{FF1F}'}
  const CLOSINGS := {'"', '\'', ')', '\U{2019}', '\U{201D}', '\U{300D}', '\U{300F}', '\U{FF09}'}

  /** A sign that can stand behind the end of a sentence and still belongs to it. */
  predicate Trails(ch: char) {
    ch in MARKS || ch in CLOSINGS || ch == '.'
  }

  /** A sentence ends with this sign; a full stop only before a blank, a closing sign or nothing. */
  predicate EndsSentence(text: string, i: nat)
    requires i < |text|
  {
    text[i] in MARKS || (text[i] == '.' && (i + 1 == |text| || IsWhitespace(text[i + 1]) || text[i + 1] in CLOSINGS))
  }

  /** From `i` to `b` there is the end of a sentence with all that trails it. */
  predicate EndsUpTo(text: string, i: nat, b: nat)
    requires i < b <= |text|
  {
    && EndsSentence(text, i) && (forall k :: i < k < b ==> Trails(text[k]))
    && (b == |text| || !Trails(text[b]))
  }

  /** A new sentence or line begins at `b`, behind a sign that stands at `i` or later. */
  predicate BreakFrom(text: string, i: nat, b: nat) {
    i < b <= |text| && (text[b - 1] in LINE_ENDS || exists k :: i <= k < b && EndsUpTo(text, k, b))
  }

  // ---- The scan finds them -------------------------------------------------------------------

  lemma SameSigns(ch: char)
    ensures IsNewline(ch) <==> ch in LINE_ENDS
    ensures IsStop(ch) <==> ch in MARKS
    ensures IsClosing(ch) <==> ch in CLOSINGS
    ensures !(IsNewline(ch) && (IsStop(ch) || IsClosing(ch) || ch == '.'))
  {
  }

  lemma {:induction false} SkipsTrailing(text: string, i: nat)
    requires i <= |text|
    ensures var n := SkipClosing(text, i);
      (forall k :: i <= k < n ==> Trails(text[k])) && (n == |text| || !Trails(text[n]))
    decreases |text| - i
  {
    if i < |text| {
      SameSigns(text[i]);
      if Trails(text[i]) {
        SkipsTrailing(text, i + 1);
      }
    }
  }

  lemma BoundaryMeans(text: string, i: nat)
    requires i < |text|
    ensures IsBoundary(text, i) <==> text[i] in LINE_ENDS || EndsSentence(text, i)
    ensures text[i] in LINE_ENDS ==> !EndsSentence(text, i) && !Trails(text[i])
  {
    SameSigns(text[i]);
    if i + 1 < |text| {
      SameSigns(text[i + 1]);
    }
  }

  /** Runs of trailing signs that overlap end at the same place. */
  lemma SameEnd(text: string, i: nat, k: nat, b: nat, n: nat)
    requires i <= k < b <= |text| && k < n <= |text|
    requires EndsUpTo(text, k, b) && EndsUpTo(text, i, n)
    ensures b == n
  {
  }

  lemma BoundaryBreaks(text: string, i: nat, b: nat)
    requires i < |text| && IsBoundary(text, i)
    ensures BreakFrom(text, i, b) <==> b == AfterBoundary(text, i) || BreakFrom(text, AfterBoundary(text, i), b)
  {
    var n := AfterBoundary(text, i);
    BoundaryMeans(text, i);
    SameSigns(text[i]);
    if text[i] !in LINE_ENDS {
      SkipsTrailing(text, i + 1);
      assert EndsUpTo(text, i, n);
      forall k: nat | i <= k < b <= |text| && k < n && EndsUpTo(text, k, b)
        ensures b == n
      {
        SameEnd(text, i, k, b, n);
      }
      if 0 < b <= |text| {
        BoundaryMeans(text, b - 1);
      }
    }
  }

  lemma NoBoundaryBreaks(text: string, i: nat, b: nat)
    requires i < |text| && !IsBoundary(text, i)
    ensures BreakFrom(text, i, b) <==> BreakFrom(text, i + 1, b)
  {
    BoundaryMeans(text, i);
  }

  lemma {:induction false} BreaksFrom(text: string, i: nat, b: nat)
    ensures b in Breaks(text, i) <==> BreakFrom(text, i, b)
    decreases |text| - i
  {
    if i < |text| {
      if IsBoundary(text, i) {
        BoundaryBreaks(text, i, b);
        BreaksFrom(text, AfterBoundary(text, i), b);
      } else {
        NoBoundaryBreaks(text, i, b);
        BreaksFrom(text, i + 1, b);
      }
    }
  }

  /** A new sentence or line begins here: behind a line end, or behind a sign that ends a sentence and all that
      trails it. */
  predicate BreakAt(text: string, b: nat) {
    BreakFrom(text, 0, b)
  }

  /** Inside words and numbers full stops end nothing: a text with no other ends has no break. */
  lemma InnerStopsEndNothing(text: string)
    requires forall i :: 0 <= i < |text| ==> text[i] !in LINE_ENDS && text[i] !in MARKS
    requires forall i :: 0 <= i < |text| && text[i] == '.' ==>
      i + 1 < |text| && !IsWhitespace(text[i + 1]) && text[i + 1] !in CLOSINGS
    ensures forall b: nat :: !BreakAt(text, b) && b !in Breaks(text, 0)
  {
    forall b: nat
      ensures b in Breaks(text, 0) <==> BreakAt(text, b)
    {
      BreaksFrom(text, 0, b);
    }
  }

  /** Main result: the sentence around a match lies between the last beginning before the match and the first one
      behind it, where the beginnings are told by their signs alone. */
  lemma SentenceMeans(text: string, r: Range, s: Range)
    ensures IsSentence(text, r, s) <==>
      && (s.start == 0 || BreakAt(text, s.start)) && s.start <= r.start
      && (s.end == |text| || BreakAt(text, s.end)) && r.end <= s.end
      && (forall b: nat :: BreakAt(text, b) ==> b <= s.start || r.start < b)
      && (forall b: nat :: BreakAt(text, b) ==> b < r.end || s.end <= b)
  {
    forall b: nat
      ensures b in Breaks(text, 0) <==> BreakAt(text, b)
    {
      BreaksFrom(text, 0, b);
    }
  }

  // ---- How much is shown -------------------------------------------------------------------------

  /** Main result: an excerpt begins a third of the budget before the match, or at the beginning of the text; it
      has the whole budget, or less at the end of the text, or more for a longer match. Without a match it is
      the beginning of the text. */
  lemma WindowMeans(c: Casing, text: string, query: string, budget: nat)
    requires Lowering(c)
    ensures var w := Window(c, text, query, budget); var m := MatchRange(c, text, query);
      && w.start <= w.end <= |text|
      && (m.None? ==> w.start == 0 && w.end == if budget <= |text| then budget else |text|)
      && (m.Some? ==>
            var r := m.value;
            && (w.start == 0 ==> r.start <= budget / 3) && (w.start > 0 ==> r.start - w.start == budget / 3)
            && w.start <= r.start < r.end <= w.end
            && (w.end == |text| || w.end == r.end || w.end - w.start == budget)
            && (w.end - w.start < budget ==> w.end == |text|) && (w.end - w.start > budget ==> w.end == r.end))
  {
    WindowHolds(c, text, query, budget);
  }

  /** Main result: an excerpt is its window, with an ellipsis on each side where the text goes on. */
  lemma ExcerptMeans(c: Casing, text: string, query: string, budget: nat)
    requires Lowering(c)
    ensures var w := Window(c, text, query, budget); var shown := Excerpt(c, text, query, budget);
      && w.start <= w.end <= |text|
      && var before, behind := if w.start == 0 then 0 else 1, if w.end == |text| then 0 else 1;
         && |shown| == before + (w.end - w.start) + behind
         && shown[before..|shown| - behind] == text[w.start..w.end]
         && (before == 1 ==> shown[0] == '\U{2026}') && (behind == 1 ==> shown[|shown| - 1] == '\U{2026}')
  {
    WindowHolds(c, text, query, budget);
  }
}
