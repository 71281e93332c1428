/**
 Lower case as the host's standard library makes it: every character for itself, but a capital
 sigma by its place in the word. How single characters fold, and which of them have a case or are
 ignored in looking for the end of a word (section 3.13 of the Unicode standard), are parameters.
 */
module Lowercase {

  import opened Text

  // ---- Every character for itself ----------------------------------------------------------------

  type Fold = char -> string

  /** Folding never loses a character. */
  ghost predicate Nonempty(fold: Fold) {
    forall c :: fold(c) != ""
  }

  /** Folding keeps white space and makes none. */
  ghost predicate KeepsSpace(fold: Fold) {
    && (forall c {:trigger fold(c)} :: IsWhitespace(c) ==> fold(c) == [c])
    && (forall c, i {:trigger fold(c)[i]} ::
          !IsWhitespace(c) && 0 <= i < |fold(c)| ==> !IsWhitespace(fold(c)[i]))
  }

  ghost predicate Folding(fold: Fold) {
    Nonempty(fold) && KeepsSpace(fold)
  }

  /** The first `k` characters, folded. */
  function FoldTo(fold: Fold, text: string, k: nat): string
    requires k <= |text|
  {
    if k == 0 then "" else FoldTo(fold, text, k - 1) + fold(text[k - 1])
  }

  function Folded(fold: Fold, text: string): string {
    FoldTo(fold, text, |text|)
  }

  /** Where the folding of character `k` begins. */
  function Offset(fold: Fold, text: string, k: nat): nat
    requires k <= |text|
  {
    if k == 0 then 0 else Offset(fold, text, k - 1) + |fold(text[k - 1])|
  }

  /** The length of the folded text. */
  function FoldedLength(fold: Fold, text: string): nat {
    Offset(fold, text, |text|)
  }

  lemma {:induction false} OffsetIsLength(fold: Fold, text: string, k: nat)
    requires k <= |text|
    ensures Offset(fold, text, k) == |FoldTo(fold, text, k)|
  {
    if k > 0 {
      OffsetIsLength(fold, text, k - 1);
    }
  }

  lemma {:induction false} OffsetsGrow(fold: Fold, text: string, a: nat, b: nat)
    requires Nonempty(fold) && a <= b <= |text|
    ensures Offset(fold, text, a) + (b - a) <= Offset(fold, text, b)
  {
    if a < b {
      OffsetsGrow(fold, text, a, b - 1);
    }
  }

  function FoldPart(fold: Fold, text: string, a: nat, b: nat): string
    requires a <= b <= |text|
  {
    if a == b then "" else FoldPart(fold, text, a, b - 1) + fold(text[b - 1])
  }

  lemma {:induction false} FoldedPart(fold: Fold, text: string, a: nat, b: nat, k: nat)
    requires a <= b <= |text| && k <= b - a
    ensures FoldTo(fold, text[a..b], k) == FoldPart(fold, text, a, a + k)
    ensures Offset(fold, text[a..b], k) == Offset(fold, text, a + k) - Offset(fold, text, a)
  {
    if k > 0 {
      FoldedPart(fold, text, a, b, k - 1);
      assert text[a..b][k - 1] == text[a + k - 1];
    }
  }

  lemma {:induction false} FoldSplits(fold: Fold, text: string, a: nat, b: nat)
    requires a <= b <= |text|
    ensures FoldTo(fold, text, b) == FoldTo(fold, text, a) + FoldPart(fold, text, a, b)
  {
    if a < b {
      FoldSplits(fold, text, a, b - 1);
    }
  }

  lemma {:induction false} FoldPartsJoin(fold: Fold, text: string, a: nat, b: nat, c: nat)
    requires a <= b <= c <= |text|
    ensures FoldPart(fold, text, a, c) == FoldPart(fold, text, a, b) + FoldPart(fold, text, b, c)
  {
    if b < c {
      FoldPartsJoin(fold, text, a, b, c - 1);
    }
  }

  /** The folding of a part stands inside the folding of the text. */
  lemma FoldedInside(fold: Fold, text: string, a: nat, b: nat)
    requires a <= b <= |text|
    ensures Folded(fold, text) == FoldTo(fold, text, a) + Folded(fold, text[a..b]) + FoldPart(fold, text, b, |text|)
    ensures |FoldTo(fold, text, a)| == Offset(fold, text, a)
  {
    FoldedPart(fold, text, a, b, b - a);
    FoldSplits(fold, text, a, |text|);
    FoldPartsJoin(fold, text, a, b, |text|);
    OffsetIsLength(fold, text, a);
  }

  // ---- The final sigma --------------------------------------------------------------------------

  const CAPITAL_SIGMA := '\U{03A3}'
  const SMALL_SIGMA := '\U{03C3}'
  const FINAL_SIGMA := '\U{03C2}'

  /** How single characters fold, and what Unicode calls case-ignorable and cased. */
  datatype Casing = Casing(fold: Fold, ignorable: char -> bool, cased: char -> bool)

  /** Single characters fold as Unicode says, as far as it matters here. */
  ghost predicate Lowering(c: Casing) {
    && Folding(c.fold)
    && c.fold(CAPITAL_SIGMA) == [SMALL_SIGMA] && c.fold(FINAL_SIGMA) == [FINAL_SIGMA]
  }

  /** Before this place, ignorable characters aside, stands a cased one. */
  predicate CasedBefore(c: Casing, text: string, i: nat)
    requires i <= |text|
  {
    i > 0 && if c.ignorable(text[i - 1]) then CasedBefore(c, text, i - 1) else c.cased(text[i - 1])
  }

  /** From this place on, ignorable characters aside, stands a cased one. */
  predicate CasedAfter(c: Casing, text: string, i: nat)
    decreases |text| - i
  {
    i < |text| && if c.ignorable(text[i]) then CasedAfter(c, text, i + 1) else c.cased(text[i])
  }

  /** `Final_Sigma`: the character ends a word. */
  predicate WordFinal(c: Casing, text: string, i: nat)
    requires i < |text|
  {
    CasedBefore(c, text, i) && !CasedAfter(c, text, i + 1)
  }

  /** A character, but a capital sigma that ends a word already small. */
  function FinalAt(c: Casing, text: string, i: nat): char
    requires i < |text|
  {
    if text[i] == CAPITAL_SIGMA && WordFinal(c, text, i) then FINAL_SIGMA else text[i]
  }

  function WithFinalsTo(c: Casing, text: string, n: nat): (t: string)
    requires n <= |text|
    ensures |t| == n
  {
    if n == 0 then "" else WithFinalsTo(c, text, n - 1) + [FinalAt(c, text, n - 1)]
  }

  function WithFinals(c: Casing, text: string): (t: string)
    ensures |t| == |text|
  {
    WithFinalsTo(c, text, |text|)
  }

  lemma {:induction false} WithFinalsAt(c: Casing, text: string, n: nat, i: nat)
    requires i < n <= |text|
    ensures WithFinalsTo(c, text, n)[i] == FinalAt(c, text, i)
  {
    if i < n - 1 {
      WithFinalsAt(c, text, n - 1, i);
    }
  }

  /** `str::to_lowercase`. */
  function Lower(c: Casing, text: string): string {
    Folded(c.fold, WithFinals(c, text))
  }

  /** All three sigmas are equally long, so offsets do not depend on the places in words. */
  lemma {:induction false} SameOffset(c: Casing, text: string, k: nat)
    requires Lowering(c) && k <= |text|
    ensures Offset(c.fold, WithFinals(c, text), k) == Offset(c.fold, text, k)
  {
    if k > 0 {
      SameOffset(c, text, k - 1);
      WithFinalsAt(c, text, |text|, k - 1);
    }
  }
}
