/**
 Semantic Versioning 2.0.0: versions as values, their text (sections 2, 9 and 10), and their
 precedence (section 11), which the host's comparison of strings must agree with.
 */
module SemVer {

  import opened Ordering
  import opened Text
  import opened Versions
  import opened Wrappers

  datatype Identifier = Number(n: nat) | Word(text: string)

  datatype Version = Version(major: nat, minor: nat, patch: nat, pre: seq<Identifier>, build: string)

  predicate IdChar(c: char) {
    '0' <= c <= '9' || 'A' <= c <= 'Z' || 'a' <= c <= 'z' || c == '-'
  }

  predicate WellFormedId(id: Identifier) {
    match id
    case Number(n) => n < 0x1_0000_0000_0000_0000
    case Word(text) =>
      && text != "" && (forall i :: 0 <= i < |text| ==> IdChar(text[i]))
      && exists i :: 0 <= i < |text| && !('0' <= text[i] <= '9')
  }

  /** A well-formed version whose numbers fit 64 bits. */
  predicate WellFormed(v: Version) {
    && v.major < 0x1_0000_0000_0000_0000 && v.minor < 0x1_0000_0000_0000_0000 && v.patch < 0x1_0000_0000_0000_0000
    && (forall i :: 0 <= i < |v.pre| ==> WellFormedId(v.pre[i]))
    && forall i :: 0 <= i < |v.build| ==> IdChar(v.build[i]) || v.build[i] == '.'
  }

  // ---- Text ----------------------------------------------------------------------------------

  function IdText(id: Identifier): string {
    match id
    case Number(n) => Decimal(n)
    case Word(text) => text
  }

  function IdTexts(ids: seq<Identifier>): (texts: seq<string>)
    ensures |texts| == |ids|
  {
    if ids == [] then [] else [IdText(ids[0])] + IdTexts(ids[1..])
  }

  function Join(parts: seq<string>): string {
    if parts == [] then "" else if |parts| == 1 then parts[0] else parts[0] + "." + Join(parts[1..])
  }

  function Decimals(ns: seq<nat>): (texts: seq<string>)
    ensures |texts| == |ns|
  {
    if ns == [] then [] else [Decimal(ns[0])] + Decimals(ns[1..])
  }

  function Core(v: Version): seq<nat> {
    [v.major, v.minor, v.patch]
  }

  function CoreText(v: Version): string {
    Join(Decimals(Core(v)))
  }

  function PreText(v: Version): string {
    if v.pre == [] then "" else "-" + Join(IdTexts(v.pre))
  }

  function BuildText(v: Version): string {
    if v.build == "" then "" else "+" + v.build
  }

  function Render(v: Version): string {
    CoreText(v) + PreText(v) + BuildText(v)
  }

  // ---- Precedence -------------------------------------------------------------------------------

  predicate CharLower(a: char, b: char) {
    a < b
  }

  /** Section 11.4: numbers numerically, words in ASCII order, numbers below words. */
  ghost predicate IdLower(a: Identifier, b: Identifier) {
    match (a, b)
    case (Number(m), Number(n)) => m < n
    case (Number(_), Word(_)) => true
    case (Word(_), Number(_)) => false
    case (Word(s), Word(t)) => FirstLower(CharLower, s, t)
  }

  predicate CoreLower(a: Version, b: Version) {
    a.major < b.major ||
    (a.major == b.major && (a.minor < b.minor || (a.minor == b.minor && a.patch < b.patch)))
  }

  predicate SameCore(a: Version, b: Version) {
    a.major == b.major && a.minor == b.minor && a.patch == b.patch
  }

  /** Section 11: a version precedes another. Build metadata does not count. */
  ghost predicate Lower(a: Version, b: Version) {
    CoreLower(a, b) ||
    (SameCore(a, b) && a.pre != [] && (b.pre == [] || FirstLower(IdLower, a.pre, b.pre)))
  }

  predicate Same(a: Version, b: Version) {
    SameCore(a, b) && a.pre == b.pre
  }

  // ---- Parsing what was rendered ------------------------------------------------------------------

  lemma {:induction false} ValueOfDecimal(n: nat)
    ensures Value(Decimal(n)) == n
  {
    if n >= 10 {
      ValueOfDecimal(n / 10);
      var s := Decimal(n / 10) + [Digit(n % 10)];
      assert s[..|s| - 1] == Decimal(n / 10);
    } else {
      assert [Digit(n)][..0] == "";
    }
  }

  lemma NumberParses(n: nat)
    requires n < U64
    ensures ParseU64(Decimal(n)) == Some(n)
  {
    ValueOfDecimal(n);
  }

  lemma WordDoesNotParse(id: Identifier)
    requires id.Word? && WellFormedId(id)
    ensures ParseU64(id.text).None?
  {
    var i :| 0 <= i < |id.text| && !('0' <= id.text[i] <= '9');
    assert IdChar(id.text[0]);
  }

  lemma {:induction false} IndexOfAppended(s: string, c: char, t: string)
    requires c !in s
    ensures IndexOf(s, c) == |s| && IndexOf(s + [c] + t, c) == |s|
  {
    if s != "" {
      assert (s + [c] + t)[1..] == s[1..] + [c] + t;
      IndexOfAppended(s[1..], c, t);
    }
  }

  predicate Plain(parts: seq<string>) {
    forall i :: 0 <= i < |parts| ==> parts[i] != "" && '.' !in parts[i]
  }

  lemma {:induction false} SplitOfJoin(parts: seq<string>)
    requires parts != [] && Plain(parts)
    ensures Split(Join(parts), '.') == parts && Join(parts) != "" && "" !in parts
  {
    IndexOfAppended(parts[0], '.', Join(parts[1..]));
    if |parts| > 1 {
      assert forall i :: 0 <= i < |parts[1..]| ==> parts[1..][i] == parts[i + 1];
      SplitOfJoin(parts[1..]);
      var s := Join(parts);
      assert s[..|parts[0]|] == parts[0] && s[|parts[0]| + 1..] == Join(parts[1..]);
      assert parts == [parts[0]] + parts[1..];
    }
  }

  /** Every character of the parts passes the test. */
  predicate AllPass(ok: char -> bool, parts: seq<string>) {
    forall i, j :: 0 <= i < |parts| && 0 <= j < |parts[i]| ==> ok(parts[i][j])
  }

  lemma {:induction false} JoinPasses(ok: char -> bool, parts: seq<string>, k: nat)
    requires AllPass(ok, parts) && ok('.') && k < |Join(parts)|
    ensures ok(Join(parts)[k])
  {
    if |parts| > 1 && k > |parts[0]| {
      JoinPasses(ok, parts[1..], k - |parts[0]| - 1);
    }
  }

  lemma JoinStarts(parts: seq<string>)
    requires parts != [] && parts[0] != ""
    ensures Join(parts) != "" && Join(parts)[0] == parts[0][0]
  {
  }

  predicate CoreChar(c: char) {
    '0' <= c <= '9' || c == '.'
  }

  predicate HeadChar(c: char) {
    IdChar(c) || c == '.'
  }

  lemma {:induction false} DecimalsPlain(ns: seq<nat>)
    ensures Plain(Decimals(ns)) && AllPass(CoreChar, Decimals(ns))
  {
    if ns != [] {
      DecimalsPlain(ns[1..]);
    }
  }

  lemma FirstParses(first: string, rest: seq<string>, ns: seq<nat>)
    requires ns != [] && ParseU64(first) == Some(ns[0]) && ParseAll(rest) == Some(ns[1..])
    ensures ParseAll([first] + rest) == Some(ns)
  {
    assert ([first] + rest)[1..] == rest && ns == [ns[0]] + ns[1..];
  }

  lemma {:induction false} DecimalsParse(ns: seq<nat>)
    requires forall i :: 0 <= i < |ns| ==> ns[i] < U64
    ensures ParseAll(Decimals(ns)) == Some(ns)
  {
    if ns != [] {
      NumberParses(ns[0]);
      DecimalsParse(ns[1..]);
      FirstParses(Decimal(ns[0]), Decimals(ns[1..]), ns);
    }
  }

  lemma {:induction false} IdTextsPlain(ids: seq<Identifier>)
    requires forall i :: 0 <= i < |ids| ==> WellFormedId(ids[i])
    ensures Plain(IdTexts(ids)) && AllPass(HeadChar, IdTexts(ids))
  {
    if ids != [] {
      IdTextsPlain(ids[1..]);
    }
  }

  lemma ReleaseParses(parts: seq<string>, ns: seq<nat>)
    requires parts != [] && Plain(parts) && AllPass(CoreChar, parts)
    requires ParseAll(parts) == Some(ns) && 0 < |ns| <= 3
    ensures ParseStripped(Join(parts)) == Some(Parsed(ns, []))
  {
    var core := Join(parts);
    forall k | 0 <= k < |core|
      ensures core[k] != '-'
    {
      JoinPasses(CoreChar, parts, k);
    }
    SplitOfJoin(parts);
    IndexOfAppended(core, '-', "");
    assert core[..|core|] == core;
  }

  lemma PrereleaseParses(parts: seq<string>, ns: seq<nat>, pre: seq<string>, s: string)
    requires parts != [] && Plain(parts) && AllPass(CoreChar, parts)
    requires ParseAll(parts) == Some(ns) && 0 < |ns| <= 3
    requires pre != [] && Plain(pre) && s == Join(parts) + ['-'] + Join(pre)
    ensures ParseStripped(s) == Some(Parsed(ns, pre))
  {
    var core := Join(parts);
    forall k | 0 <= k < |core|
      ensures core[k] != '-'
    {
      JoinPasses(CoreChar, parts, k);
    }
    SplitOfJoin(parts);
    SplitOfJoin(pre);
    IndexOfAppended(core, '-', Join(pre));
    assert s[..|core|] == core && s[|core| + 1..] == Join(pre);
  }

  lemma StrippedParses(v: Version)
    requires WellFormed(v)
    ensures ParseStripped(CoreText(v) + PreText(v)) == Some(Parsed(Core(v), IdTexts(v.pre)))
  {
    var parts, pre := Decimals(Core(v)), IdTexts(v.pre);
    DecimalsPlain(Core(v));
    DecimalsParse(Core(v));
    IdTextsPlain(v.pre);
    if v.pre == [] {
      assert CoreText(v) + PreText(v) == Join(parts);
      ReleaseParses(parts, Core(v));
    } else {
      assert CoreText(v) + PreText(v) == Join(parts) + ['-'] + Join(pre);
      PrereleaseParses(parts, Core(v), pre, CoreText(v) + PreText(v));
    }
  }

  predicate Head(s: string) {
    && s != "" && '0' <= s[0] <= '9'
    && forall i :: 0 <= i < |s| ==> HeadChar(s[i])
  }

  lemma HeadIsHead(v: Version)
    requires WellFormed(v)
    ensures Head(CoreText(v) + PreText(v))
  {
    var core, pre := Decimals(Core(v)), IdTexts(v.pre);
    DecimalsPlain(Core(v));
    IdTextsPlain(v.pre);
    JoinStarts(core);
    var s := CoreText(v) + PreText(v);
    forall k | 0 <= k < |s|
      ensures HeadChar(s[k])
    {
      var at := |CoreText(v)|;
      if k < at {
        JoinPasses(CoreChar, core, k);
      } else if k > at {
        JoinPasses(HeadChar, pre, k - at - 1);
      }
    }
  }

  lemma StripsBuild(head: string, build: string, s: string)
    requires Head(head) && (forall i :: 0 <= i < |build| ==> HeadChar(build[i]))
    requires s == if build == "" then head else head + ['+'] + build
    ensures Strip(s) == head
  {
    assert s[0] == head[0];
    assert Trim(s) == s;
    IndexOfAppended(head, '+', build);
    assert s[..|head|] == head;
  }

  lemma RenderStrips(v: Version)
    requires WellFormed(v)
    ensures Strip(Render(v)) == CoreText(v) + PreText(v)
  {
    var head := CoreText(v) + PreText(v);
    HeadIsHead(v);
    assert Render(v) == if v.build == "" then head else head + ['+'] + v.build;
    StripsBuild(head, v.build, Render(v));
  }

  /** Main result: the host parses the text of a version back into its numbers and identifiers. */
  lemma RenderParses(v: Version)
    requires WellFormed(v)
    ensures Parse(Render(v)) == Some(Parsed(Core(v), IdTexts(v.pre)))
  {
    RenderStrips(v);
    StrippedParses(v);
  }

  // ---- Agreement -------------------------------------------------------------------------------------

  function CompareId(a: Identifier, b: Identifier): Order {
    match (a, b)
    case (Number(m), Number(n)) => CompareNat(m, n)
    case (Number(_), Word(_)) => Less
    case (Word(_), Number(_)) => Greater
    case (Word(s), Word(t)) => CompareText(s, t)
  }

  lemma CompareIdIsLower()
    ensures forall a, b :: CompareId(a, b) == Less <==> IdLower(a, b)
    ensures forall a, b :: CompareId(a, b) == Equal <==> a == b
  {
    forall a, b
      ensures CompareId(a, b) == Less <==> IdLower(a, b)
      ensures CompareId(a, b) == Equal <==> a == b
    {
      if a.Word? && b.Word? {
        LexicographicIsFirstLower(CompareChar, CharLower, a.text, b.text);
      }
    }
  }

  lemma PartsCompareAsIds(a: Identifier, b: Identifier)
    requires WellFormedId(a) && WellFormedId(b)
    ensures ComparePart(IdText(a), IdText(b)) == CompareId(a, b)
  {
    if a.Number? {
      NumberParses(a.n);
    } else {
      WordDoesNotParse(a);
    }
    if b.Number? {
      NumberParses(b.n);
    } else {
      WordDoesNotParse(b);
    }
  }

  lemma {:induction false} ListsCompareAsIds(p: seq<Identifier>, q: seq<Identifier>)
    requires forall i :: 0 <= i < |p| ==> WellFormedId(p[i])
    requires forall i :: 0 <= i < |q| ==> WellFormedId(q[i])
    ensures Lexicographic(ComparePart, IdTexts(p), IdTexts(q)) == Lexicographic(CompareId, p, q)
  {
    if p != [] && q != [] {
      PartsCompareAsIds(p[0], q[0]);
      ListsCompareAsIds(p[1..], q[1..]);
    }
  }

  lemma AgreesBelow(a: Version, b: Version)
    requires WellFormed(a) && WellFormed(b)
    ensures Compare(Render(a), Render(b)) == Less <==> Lower(a, b)
    ensures Compare(Render(a), Render(b)) == Equal <==> Same(a, b)
  {
    RenderParses(a);
    RenderParses(b);
    ListsCompareAsIds(a.pre, b.pre);
    CompareIdIsLower();
    LexicographicIsFirstLower(CompareId, IdLower, a.pre, b.pre);
  }

  /** Main result: on well-formed versions the host's comparison is the precedence of section 11. */
  lemma AgreesWithSemVer(a: Version, b: Version)
    requires WellFormed(a) && WellFormed(b)
    ensures Compare(Render(a), Render(b)) == Less <==> Lower(a, b)
    ensures Compare(Render(a), Render(b)) == Equal <==> Same(a, b)
    ensures Compare(Render(a), Render(b)) == Greater <==> Lower(b, a)
  {
    AgreesBelow(a, b);
    AgreesBelow(b, a);
    CompareReverses(Render(a), Render(b));
  }
}
