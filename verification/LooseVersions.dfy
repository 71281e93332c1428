/**
 The texts of versions that catalogs really hold (crates/host-core/src/plugins.rs): with blanks
 around them, with a leading `v`, and with one or two numbers instead of three.
 */
module LooseVersions {

  import opened Ordering
  import opened SemVer
  import opened Text
  import opened Versions
  import opened Wrappers

  datatype Loose = Loose(left: string, tagged: bool, core: seq<nat>, pre: seq<Identifier>, build: string, right: string)

  predicate LooselyFormed(l: Loose) {
    && Blank(l.left) && Blank(l.right) && l.core != []
    && (forall i :: 0 <= i < |l.core| ==> l.core[i] < 0x1_0000_0000_0000_0000)
    && (forall i :: 0 <= i < |l.pre| ==> WellFormedId(l.pre[i]))
    && forall i :: 0 <= i < |l.build| ==> IdChar(l.build[i]) || l.build[i] == '.'
  }

  /** The numbers and the prerelease, without anything around them. */
  function HeadText(l: Loose): string {
    Join(Decimals(l.core)) + if l.pre == [] then "" else "-" + Join(IdTexts(l.pre))
  }

  function Body(l: Loose): string {
    (if l.tagged then "v" else "") + HeadText(l) + if l.build == "" then "" else "+" + l.build
  }

  function LooseText(l: Loose): string {
    l.left + Body(l) + l.right
  }

  /** The version it stands for; missing numbers are zero. */
  function Padded(l: Loose): Version
    requires 1 <= |l.core| <= 3
  {
    Version(l.core[0], if |l.core| > 1 then l.core[1] else 0, if |l.core| > 2 then l.core[2] else 0, l.pre, l.build)
  }

  /** Spaces, tabs and line ends are blank; letters, digits and the signs of a version are not. */
  lemma Blanks(c: char)
    ensures c == ' ' || c == '\t' || c == '\n' || c == '\r' ==> IsWhitespace(c)
    ensures '!' <= c <= '~' ==> !IsWhitespace(c)
  {
  }

  lemma TrimsAround(left: string, body: string, right: string)
    requires Blank(left) && Blank(right)
    requires body != "" && !IsWhitespace(body[0]) && !IsWhitespace(body[|body| - 1])
    ensures Trim(left + body + right) == body
  {
    var s := left + body + right;
    var n := Leading(s);
    forall k | 0 <= k < n
      ensures IsWhitespace(s[k])
    {
      assert s[k] == s[..n][k];
    }
    assert forall k :: 0 <= k < |left| ==> s[k] == left[k];
    assert s[|left|] == body[0];
    assert n == |left|;
    var rest := s[n..];
    assert rest == body + right;
    TrimsBehind(body, right, rest);
  }

  lemma TrimsBehind(body: string, right: string, rest: string)
    requires Blank(right) && body != "" && !IsWhitespace(body[|body| - 1]) && rest == body + right
    ensures rest[..Trailing(rest)] == body
  {
    var m := Trailing(rest);
    forall k | m <= k < |rest|
      ensures IsWhitespace(rest[k])
    {
      assert rest[k] == rest[m..][k - m];
    }
    assert forall k :: |body| <= k < |rest| ==> rest[k] == right[k - |body|];
    assert rest[|body| - 1] == body[|body| - 1];
    assert m == |body|;
  }

  lemma HeadTextIsHead(l: Loose)
    requires LooselyFormed(l)
    ensures Head(HeadText(l))
  {
    var core, pre := Decimals(l.core), IdTexts(l.pre);
    DecimalsPlain(l.core);
    IdTextsPlain(l.pre);
    JoinStarts(core);
    var s, at := HeadText(l), |Join(core)|;
    forall k | 0 <= k < |s|
      ensures HeadChar(s[k])
    {
      if k < at {
        JoinPasses(CoreChar, core, k);
      } else if k > at {
        JoinPasses(HeadChar, pre, k - at - 1);
      }
    }
  }

  lemma BodyEnds(l: Loose)
    requires LooselyFormed(l)
    ensures Body(l) != "" && !IsWhitespace(Body(l)[0]) && !IsWhitespace(Body(l)[|Body(l)| - 1])
    ensures Body(l)[0] == 'v' <==> l.tagged
  {
    HeadTextIsHead(l);
    var head := HeadText(l);
    assert Body(l)[0] == if l.tagged then 'v' else head[0];
    assert Body(l)[|Body(l)| - 1] == if l.build == "" then head[|head| - 1] else l.build[|l.build| - 1];
  }

  /** What stands before the first sign of this kind. */
  lemma CutAt(head: string, tail: string, s: string, c: char)
    requires s == head + tail && c !in head && (tail != "" ==> tail[0] == c)
    ensures s[..IndexOf(s, c)] == head
  {
    assert forall k :: 0 <= k < |head| ==> s[k] == head[k] && head[k] in head;
    assert tail != "" ==> s[|head|] == tail[0];
    assert IndexOf(s, c) == |head|;
  }

  lemma StripOf(s: string, tagged: bool, head: string, build: string, body: string)
    requires Trim(s) == body && body == (if tagged then "v" else "") + head + build
    requires body != "" && (body[0] == 'v' <==> tagged)
    requires '+' !in head && (build != "" ==> build[0] == '+')
    ensures Strip(s) == head
  {
    assert (if tagged then body[1..] else body) == head + build;
    CutAt(head, build, head + build, '+');
  }

  lemma LooseStrips(l: Loose)
    requires LooselyFormed(l)
    ensures Strip(LooseText(l)) == HeadText(l)
  {
    BodyEnds(l);
    HeadTextIsHead(l);
    TrimsAround(l.left, Body(l), l.right);
    PartsStrip(LooseText(l), l.tagged, HeadText(l), l.build, Body(l));
  }

  lemma PartsStrip(s: string, tagged: bool, head: string, build: string, body: string)
    requires Trim(s) == body && body == (if tagged then "v" else "") + head + if build == "" then "" else "+" + build
    requires body != "" && (body[0] == 'v' <==> tagged) && Head(head)
    ensures Strip(s) == head
  {
    HeadHasNoPlus(head);
    StripOf(s, tagged, head, if build == "" then "" else "+" + build, body);
  }

  lemma HeadHasNoPlus(head: string)
    requires Head(head)
    ensures '+' !in head
  {
    forall i | 0 <= i < |head|
      ensures head[i] != '+'
    {
      assert HeadChar(head[i]);
    }
  }

  /** More than three numbers are no version. */
  lemma LongCoreFails(parts: seq<string>, tail: string)
    requires Plain(parts) && AllPass(CoreChar, parts) && |parts| > 3 && (tail != "" ==> tail[0] == '-')
    ensures ParseStripped(Join(parts) + tail).None?
  {
    var core := Join(parts);
    forall k | 0 <= k < |core|
      ensures core[k] != '-'
    {
      JoinPasses(CoreChar, parts, k);
    }
    SplitOfJoin(parts);
    CutAt(core, tail, core + tail, '-');
    ParsesAll(parts);
  }

  lemma {:induction false} ParsesAll(parts: seq<string>)
    ensures ParseAll(parts).Some? ==> |ParseAll(parts).value| == |parts|
  {
    if parts != [] {
      ParsesAll(parts[1..]);
    }
  }

  /** Main result: blanks around a version, a leading `v` and build metadata are dropped, and the rest is
      parsed back into its numbers and identifiers; more than three numbers are no version. */
  lemma LooseParses(l: Loose)
    requires LooselyFormed(l)
    ensures Parse(LooseText(l)) == if |l.core| <= 3 then Some(Parsed(l.core, IdTexts(l.pre))) else None
  {
    LooseStrips(l);
    var parts, pre := Decimals(l.core), IdTexts(l.pre);
    DecimalsPlain(l.core);
    DecimalsParse(l.core);
    IdTextsPlain(l.pre);
    if |l.core| > 3 {
      LongCoreFails(parts, if l.pre == [] then "" else "-" + Join(pre));
    } else if l.pre == [] {
      assert HeadText(l) == Join(parts);
      ReleaseParses(parts, l.core);
    } else {
      assert HeadText(l) == Join(parts) + ['-'] + Join(pre);
      PrereleaseParses(parts, l.core, pre, HeadText(l));
    }
  }

  lemma PaddedParses(l: Loose)
    requires LooselyFormed(l) && |l.core| <= 3
    ensures WellFormed(Padded(l))
    ensures Parse(Render(Padded(l))) == Some(Parsed(Core(Padded(l)), IdTexts(l.pre)))
  {
    RenderParses(Padded(l));
  }

  lemma ComparesAsPadded(a: Loose, b: Loose)
    requires LooselyFormed(a) && LooselyFormed(b) && |a.core| <= 3 && |b.core| <= 3
    ensures WellFormed(Padded(a)) && WellFormed(Padded(b))
    ensures Compare(LooseText(a), LooseText(b)) == Compare(Render(Padded(a)), Render(Padded(b)))
  {
    LooseParses(a);
    LooseParses(b);
    PaddedParses(a);
    PaddedParses(b);
    assert CompareCores(a.core, b.core) == CompareCores(Core(Padded(a)), Core(Padded(b)));
  }

  /** Main result: such texts compare by the precedence of the versions they stand for, and come after
      everything that is no version. */
  lemma LooseTextsAgree(a: Loose, b: Loose, other: string)
    requires LooselyFormed(a) && LooselyFormed(b) && |a.core| <= 3 && |b.core| <= 3
    ensures Compare(LooseText(a), LooseText(b)) == Less <==> Lower(Padded(a), Padded(b))
    ensures Compare(LooseText(a), LooseText(b)) == Equal <==> Same(Padded(a), Padded(b))
    ensures Compare(LooseText(a), LooseText(b)) == Greater <==> Lower(Padded(b), Padded(a))
    ensures Parse(other).None? ==> Compare(other, LooseText(a)) == Less
  {
    ComparesAsPadded(a, b);
    AgreesWithSemVer(Padded(a), Padded(b));
    LooseParses(a);
  }

  /** Texts that are no versions compare as texts do, by the first sign that differs. */
  lemma OthersCompareAsText(a: string, b: string)
    requires Parse(a).None? && Parse(b).None?
    ensures Compare(a, b) == Less <==> FirstLower(CharLower, a, b)
    ensures Compare(a, b) == Equal <==> a == b
  {
    LexicographicIsFirstLower(CompareChar, CharLower, a, b);
  }
}
