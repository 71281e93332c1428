/**
 Two texts whose search hit is not in what is shown for it (crates/host-core/src/session_search.rs):
 the sentence is cut out of the word that a capital sigma stands in.
 */
module SearchLosses {

  import opened Lowercase
  import opened SearchExcerpt
  import opened SearchSentence
  import opened Text
  import opened Wrappers

  const APOSTROPHE := '\U{2019}'

  /** The letters of the two texts, as Unicode has them: capital and small alpha, beta, delta and omicron. */
  function SmallLetter(x: char): char {
    match x
    case '\U{0391}' => '\U{03B1}'
    case '\U{0392}' => '\U{03B2}'
    case '\U{0394}' => '\U{03B4}'
    case '\U{039F}' => '\U{03BF}'
    case _ => x
  }

  predicate Letter(x: char) {
    x in {'\U{0391}', '\U{0392}', '\U{0394}', '\U{039F}', '\U{03B1}', '\U{03B2}', '\U{03B4}', '\U{03BF}',
          CAPITAL_SIGMA, SMALL_SIGMA, FINAL_SIGMA}
  }

  predicate Mark(x: char) {
    x in {'.', APOSTROPHE}
  }

  /** A casing that has these letters and marks as Unicode has them: letters are cased, the marks are ignored. */
  ghost predicate Greek(c: Casing) {
    && Lowering(c)
    && (forall x :: Letter(x) ==> c.cased(x) && !c.ignorable(x))
    && (forall x :: Letter(x) && x != CAPITAL_SIGMA ==> c.fold(x) == [SmallLetter(x)])
    && (forall x :: Mark(x) ==> c.ignorable(x) && c.fold(x) == [x])
    && !c.ignorable(' ') && !c.cased(' ')
  }

  /** There are such casings. */
  lemma GreekExists()
    ensures Greek(Casing(x => if x == CAPITAL_SIGMA then [SMALL_SIGMA] else [SmallLetter(x)],
                         x => Mark(x), x => Letter(x)))
  {
  }

  // ---- Characters that fold to single ones ----------------------------------------------------------

  /** The text in lower case, character by character. */
  ghost predicate LowersTo(c: Casing, text: string, low: string) {
    |low| == |text| && forall i {:trigger low[i]} :: 0 <= i < |text| ==> c.fold(FinalAt(c, text, i)) == [low[i]]
  }

  lemma {:induction false} LowersPrefix(c: Casing, text: string, low: string, k: nat)
    requires LowersTo(c, text, low) && k <= |text|
    ensures FoldTo(c.fold, WithFinals(c, text), k) == low[..k] && Offset(c.fold, WithFinals(c, text), k) == k
  {
    if k > 0 {
      LowersPrefix(c, text, low, k - 1);
      WithFinalsAt(c, text, |text|, k - 1);
      assert low[..k] == low[..k - 1] + [low[k - 1]];
    }
  }

  lemma LowerIs(c: Casing, text: string, low: string)
    requires LowersTo(c, text, low)
    ensures Lower(c, text) == low
  {
    LowersPrefix(c, text, low, |text|);
    assert low[..|text|] == low;
  }

  lemma CharIs(c: Casing, text: string, low: string, k: nat)
    requires Lowering(c) && LowersTo(c, text, low) && k < |text|
    ensures k < FoldedLength(c.fold, WithFinals(c, text)) && CharAt(c.fold, WithFinals(c, text), k) == k
  {
    LowersPrefix(c, text, low, k);
    LowersPrefix(c, text, low, k + 1);
    LowersPrefix(c, text, low, |text|);
    OneChar(c.fold, WithFinals(c, text), k, k, CharAt(c.fold, WithFinals(c, text), k));
  }

  lemma RangeIs(c: Casing, text: string, low: string, query: string, needle: string, hit: nat)
    requires Lowering(c) && LowersTo(c, text, low) && Needle(c, query) == needle && needle != ""
    requires Find(low, needle) == Some(hit)
    ensures MatchRange(c, text, query) == Some(Range(hit, hit + |needle|))
  {
    LowerIs(c, text, low);
    CharIs(c, text, low, hit);
    CharIs(c, text, low, hit + |needle| - 1);
  }

  lemma FirstIs(hay: string, needle: string, hit: nat)
    requires needle != "" && Hit(hay, needle, hit) && forall j :: 0 <= j < hit ==> hay[j] != needle[0]
    ensures Find(hay, needle) == Some(hit)
  {
    forall j | 0 <= j < hit
      ensures !Hit(hay, needle, j)
    {
      if j + |needle| <= |hay| {
        assert hay[j..j + |needle|][0] == hay[j];
      }
    }
    FindIs(hay, needle, hit);
  }

  lemma CharOfHit(hay: string, needle: string, i: nat, k: nat)
    requires Hit(hay, needle, i) && k < |needle|
    ensures needle[k] in hay
  {
    assert needle[k] == hay[i..i + |needle|][k] == hay[i + k];
  }

  lemma CharMissing(hay: string, needle: string, k: nat)
    requires k < |needle| && needle[k] !in hay
    ensures !Contains(hay, needle)
  {
    if i: nat :| Hit(hay, needle, i) {
      CharOfHit(hay, needle, i, k);
    }
  }

  // ---- The sentence begins within the word ------------------------------------------------------------

  /** Alpha, a full stop, an apostrophe, capital sigma, a space, beta. */
  const LATE_TEXT := ['\U{0391}', '.', APOSTROPHE, CAPITAL_SIGMA, ' ', '\U{0392}']
  const LATE_QUERY := [FINAL_SIGMA, ' ', '\U{03B2}']

  /** In the text the sigma ends a word, for the marks before it are ignored; in its sentence it stands alone. */
  lemma LateLowers(c: Casing)
    requires Greek(c)
    ensures LowersTo(c, LATE_TEXT, ['\U{03B1}', '.', APOSTROPHE, FINAL_SIGMA, ' ', '\U{03B2}'])
    ensures LowersTo(c, LATE_TEXT[3..6], [SMALL_SIGMA, ' ', '\U{03B2}'])
    ensures LowersTo(c, LATE_QUERY, LATE_QUERY)
  {
    var t := LATE_TEXT;
    assert CasedBefore(c, t, 1);
    assert CasedBefore(c, t, 2);
    assert CasedBefore(c, t, 3) && !CasedAfter(c, t, 4);
    assert !CasedBefore(c, t[3..6], 0);
    assert IsWhitespace(' ');
  }

  lemma LateSentence()
    ensures IsSentence(LATE_TEXT, Range(3, 6), Range(3, 6))
  {
    var t := LATE_TEXT;
    assert IsBoundary(t, 1) && AfterBoundary(t, 1) == SkipClosing(t, 2) == SkipClosing(t, 3) == 3;
    assert Breaks(t, 6) == [];
    assert Breaks(t, 5) == Breaks(t, 6);
    assert Breaks(t, 4) == Breaks(t, 5);
    assert Breaks(t, 3) == Breaks(t, 4);
    assert Breaks(t, 1) == [3] + Breaks(t, 3);
    assert Breaks(t, 0) == Breaks(t, 1) == [3];
  }

  lemma LateFound(c: Casing, low: string)
    requires Greek(c) && LowersTo(c, LATE_TEXT, low)
    requires low == ['\U{03B1}', '.', APOSTROPHE, FINAL_SIGMA, ' ', '\U{03B2}']
    requires Needle(c, LATE_QUERY) == LATE_QUERY
    ensures MatchRange(c, LATE_TEXT, LATE_QUERY) == Some(Range(3, 6))
  {
    assert low[3..3 + |LATE_QUERY|] == LATE_QUERY;
    FirstIs(low, LATE_QUERY, 3);
    RangeIs(c, LATE_TEXT, low, LATE_QUERY, LATE_QUERY, 3);
  }

  lemma LateShown(c: Casing, sentence: string, low: string)
    requires Greek(c) && sentence == LATE_TEXT[3..6] && LowersTo(c, sentence, low)
    requires low == [SMALL_SIGMA, ' ', '\U{03B2}']
    ensures Shown(c, sentence, LATE_QUERY, 180) == sentence && !Contains(Lower(c, sentence), LATE_QUERY)
  {
    assert Trim(sentence) == sentence;
    LowerIs(c, sentence, low);
    CharMissing(low, LATE_QUERY, 0);
  }

  /** At the host's own budget: the query is found, and what is shown does not contain it. */
  lemma CutBeforeSigmaLosesMatch(c: Casing)
    requires Greek(c)
    ensures MatchRange(c, LATE_TEXT, LATE_QUERY) == Some(Range(3, 6))
    ensures IsSentence(LATE_TEXT, Range(3, 6), Range(3, 6))
    ensures Shown(c, LATE_TEXT[3..6], LATE_QUERY, 180) == LATE_TEXT[3..6]
    ensures !Contains(Lower(c, LATE_TEXT[3..6]), Needle(c, LATE_QUERY))
  {
    LateLowers(c);
    LateSentence();
    assert Trim(LATE_QUERY) == LATE_QUERY;
    LowerIs(c, LATE_QUERY, LATE_QUERY);
    LateFound(c, ['\U{03B1}', '.', APOSTROPHE, FINAL_SIGMA, ' ', '\U{03B2}']);
    LateShown(c, LATE_TEXT[3..6], [SMALL_SIGMA, ' ', '\U{03B2}']);
  }

  // ---- The sentence ends within the word ---------------------------------------------------------------

  /** Omicron, delta, omicron, sigma, a full stop, an apostrophe, alpha. */
  const EARLY_TEXT := ['\U{039F}', '\U{0394}', '\U{039F}', CAPITAL_SIGMA, '.', APOSTROPHE, '\U{0391}']
  const EARLY_QUERY := ['\U{03BF}', '\U{03B4}', '\U{03BF}', SMALL_SIGMA]

  lemma EarlyLowers(c: Casing)
    requires Greek(c)
    ensures LowersTo(c, EARLY_TEXT, EARLY_QUERY + ['.', APOSTROPHE, '\U{03B1}'])
    ensures LowersTo(c, EARLY_TEXT[0..6], ['\U{03BF}', '\U{03B4}', '\U{03BF}', FINAL_SIGMA, '.', APOSTROPHE])
    ensures LowersTo(c, EARLY_QUERY, EARLY_QUERY)
  {
    var t := EARLY_TEXT;
    var s := t[0..6];
    assert CasedAfter(c, t, 6);
    assert CasedAfter(c, t, 5);
    assert CasedAfter(c, t, 4);
    assert !CasedAfter(c, s, 6);
    assert !CasedAfter(c, s, 5);
    assert !CasedAfter(c, s, 4) && CasedBefore(c, s, 3);
  }

  lemma EarlySentence()
    ensures IsSentence(EARLY_TEXT, Range(0, 4), Range(0, 6))
  {
    var t := EARLY_TEXT;
    assert IsBoundary(t, 4) && AfterBoundary(t, 4) == SkipClosing(t, 5) == SkipClosing(t, 6) == 6;
    assert Breaks(t, 7) == [];
    assert Breaks(t, 6) == Breaks(t, 7);
    assert Breaks(t, 4) == [6] + Breaks(t, 6);
    assert Breaks(t, 3) == Breaks(t, 4);
    assert Breaks(t, 2) == Breaks(t, 3);
    assert Breaks(t, 1) == Breaks(t, 2);
    assert Breaks(t, 0) == Breaks(t, 1) == [6];
  }

  lemma EarlyFound(c: Casing, low: string)
    requires Greek(c) && LowersTo(c, EARLY_TEXT, low) && low == EARLY_QUERY + ['.', APOSTROPHE, '\U{03B1}']
    requires Needle(c, EARLY_QUERY) == EARLY_QUERY
    ensures MatchRange(c, EARLY_TEXT, EARLY_QUERY) == Some(Range(0, 4))
  {
    assert low[0..0 + |EARLY_QUERY|] == EARLY_QUERY;
    FirstIs(low, EARLY_QUERY, 0);
    RangeIs(c, EARLY_TEXT, low, EARLY_QUERY, EARLY_QUERY, 0);
  }

  lemma EarlyShown(c: Casing, sentence: string, low: string)
    requires Greek(c) && sentence == EARLY_TEXT[0..6] && LowersTo(c, sentence, low)
    requires low == ['\U{03BF}', '\U{03B4}', '\U{03BF}', FINAL_SIGMA, '.', APOSTROPHE]
    ensures Shown(c, sentence, EARLY_QUERY, 180) == sentence && !Contains(Lower(c, sentence), EARLY_QUERY)
  {
    assert Trim(sentence) == sentence;
    LowerIs(c, sentence, low);
    CharMissing(low, EARLY_QUERY, 3);
  }

  /** The same with the rest of the word behind the cut. */
  lemma CutAfterSigmaLosesMatch(c: Casing)
    requires Greek(c)
    ensures MatchRange(c, EARLY_TEXT, EARLY_QUERY) == Some(Range(0, 4))
    ensures IsSentence(EARLY_TEXT, Range(0, 4), Range(0, 6))
    ensures Shown(c, EARLY_TEXT[0..6], EARLY_QUERY, 180) == EARLY_TEXT[0..6]
    ensures !Contains(Lower(c, EARLY_TEXT[0..6]), Needle(c, EARLY_QUERY))
  {
    EarlyLowers(c);
    EarlySentence();
    assert Trim(EARLY_QUERY) == EARLY_QUERY;
    LowerIs(c, EARLY_QUERY, EARLY_QUERY);
    EarlyFound(c, EARLY_QUERY + ['.', APOSTROPHE, '\U{03B1}']);
    EarlyShown(c, EARLY_TEXT[0..6], ['\U{03BF}', '\U{03B4}', '\U{03BF}', FINAL_SIGMA, '.', APOSTROPHE]);
  }
}
