/**
 The order of plugin versions and the choice of the latest one
 (crates/host-core/src/plugins.rs): a comparison defined on all strings.
 */
module Versions {

  import opened Ordering
  import opened Text
  import opened Wrappers

  const U64 := 0x1_0000_0000_0000_0000

  // ---- Parsing ---------------------------------------------------------------------------

  /** Where a character first stands, or the length. */
  function IndexOf(s: string, c: char): (i: nat)
    ensures i <= |s| && (i < |s| ==> s[i] == c)
    ensures forall k :: 0 <= k < i ==> s[k] != c
  {
    if s == [] || s[0] == c then 0 else 1 + IndexOf(s[1..], c)
  }

  function Split(s: string, c: char): (parts: seq<string>)
    ensures |parts| > 0
    decreases |s|
  {
    var i := IndexOf(s, c);
    if i == |s| then [s] else [s[..i]] + Split(s[i + 1..], c)
  }

  predicate Digits(s: string) {
    s != "" && forall i :: 0 <= i < |s| ==> '0' <= s[i] <= '9'
  }

  function Value(s: string): nat
    requires forall i :: 0 <= i < |s| ==> '0' <= s[i] <= '9'
  {
    if s == "" then 0 else 10 * Value(s[..|s| - 1]) + (s[|s| - 1] as nat - '0' as nat)
  }

  /** `str::parse::<u64>`: one plus sign may stand in front. */
  function ParseU64(s: string): Option<nat> {
    var digits := if s != "" && s[0] == '+' then s[1..] else s;
    if Digits(digits) && Value(digits) < U64 then Some(Value(digits)) else None
  }

  function ParseAll(parts: seq<string>): Option<seq<nat>> {
    if parts == [] then Some([])
    else
      var first, rest := ParseU64(parts[0]), ParseAll(parts[1..]);
      if first.None? || rest.None? then None else Some([first.value] + rest.value)
  }

  datatype Parsed = Parsed(core: seq<nat>, prerelease: seq<string>)

  /** The parts of a version without its `v` and its build metadata. */
  function ParseStripped(version: string): Option<Parsed> {
    var dash := IndexOf(version, '-');
    var core := ParseAll(Split(version[..dash], '.'));
    var prerelease := if dash < |version| then version[dash + 1..] else "";
    var parts := if prerelease == "" then [] else Split(prerelease, '.');
    if core.None? || core.value == [] || |core.value| > 3 || "" in parts then None
    else Some(Parsed(core.value, parts))
  }

  function Strip(version: string): string {
    var trimmed := Trim(version);
    var plain := if trimmed != "" && trimmed[0] == 'v' then trimmed[1..] else trimmed;
    plain[..IndexOf(plain, '+')]
  }

  function Parse(version: string): Option<Parsed> {
    ParseStripped(Strip(version))
  }

  // ---- Comparing ---------------------------------------------------------------------------

  function CoreAt(core: seq<nat>, i: nat): nat {
    if i < |core| then core[i] else 0
  }

  function CompareCores(a: seq<nat>, b: seq<nat>): Order {
    Then(CompareNat(CoreAt(a, 0), CoreAt(b, 0)),
         Then(CompareNat(CoreAt(a, 1), CoreAt(b, 1)), CompareNat(CoreAt(a, 2), CoreAt(b, 2))))
  }

  /** Numeric identifiers come before all others. */
  function ComparePart(a: string, b: string): Order {
    match (ParseU64(a), ParseU64(b))
    case (Some(m), Some(n)) => CompareNat(m, n)
    case (Some(_), None) => Less
    case (None, Some(_)) => Greater
    case (None, None) => CompareText(a, b)
  }

  /** A release comes after its prereleases. */
  function ComparePrereleases(a: seq<string>, b: seq<string>): Order {
    if a == [] then (if b == [] then Equal else Greater)
    else if b == [] then Less
    else Lexicographic(ComparePart, a, b)
  }

  function CompareParsed(a: Parsed, b: Parsed): Order {
    Then(CompareCores(a.core, b.core), ComparePrereleases(a.prerelease, b.prerelease))
  }

  function Compare(a: string, b: string): Order {
    match (Parse(a), Parse(b))
    case (Some(p), Some(q)) => CompareParsed(p, q)
    case (Some(_), None) => Greater
    case (None, Some(_)) => Less
    case (None, None) => CompareText(a, b)
  }

  // ---- A total preorder on all strings -------------------------------------------------------

  lemma CoresAreOrdered(a: seq<nat>, b: seq<nat>, c: seq<nat>)
    ensures CompareCores(b, a) == Flip(CompareCores(a, b))
    ensures Chains(CompareCores(a, b), CompareCores(b, c), CompareCores(a, c))
  {
  }

  lemma PartsAreOrdered()
    ensures TotalPreorder(ComparePart)
  {
    forall a, b
      ensures ComparePart(b, a) == Flip(ComparePart(a, b))
    {
      TextIsOrdered(a, b, b);
    }
    forall a, b, c
      ensures Chains(ComparePart(a, b), ComparePart(b, c), ComparePart(a, c))
    {
      TextIsOrdered(a, b, c);
    }
  }

  lemma PrereleasesAreOrdered(a: seq<string>, b: seq<string>, c: seq<string>)
    ensures ComparePrereleases(b, a) == Flip(ComparePrereleases(a, b))
    ensures Chains(ComparePrereleases(a, b), ComparePrereleases(b, c), ComparePrereleases(a, c))
  {
    PartsAreOrdered();
    LexicographicReverses(ComparePart, a, b);
    LexicographicChains(ComparePart, a, b, c);
  }

  lemma ParsedAreOrdered(a: Parsed, b: Parsed, c: Parsed)
    ensures CompareParsed(b, a) == Flip(CompareParsed(a, b))
    ensures Chains(CompareParsed(a, b), CompareParsed(b, c), CompareParsed(a, c))
  {
    CoresAreOrdered(a.core, b.core, c.core);
    PrereleasesAreOrdered(a.prerelease, b.prerelease, c.prerelease);
    ThenChains(CompareCores(a.core, b.core), CompareCores(b.core, c.core), CompareCores(a.core, c.core),
               ComparePrereleases(a.prerelease, b.prerelease), ComparePrereleases(b.prerelease, c.prerelease),
               ComparePrereleases(a.prerelease, c.prerelease));
  }

  lemma CompareReverses(a: string, b: string)
    ensures Compare(b, a) == Flip(Compare(a, b))
  {
    if Parse(a).Some? && Parse(b).Some? {
      ParsedAreOrdered(Parse(a).value, Parse(b).value, Parse(b).value);
    }
    TextIsOrdered(a, b, b);
  }

  lemma CompareChains(a: string, b: string, c: string)
    ensures Chains(Compare(a, b), Compare(b, c), Compare(a, c))
  {
    if Parse(a).Some? && Parse(b).Some? && Parse(c).Some? {
      ParsedAreOrdered(Parse(a).value, Parse(b).value, Parse(c).value);
    }
    TextIsOrdered(a, b, c);
  }

  /** Main result: comparing versions is a total preorder on all strings, versions or not. */
  lemma CompareIsTotalPreorder()
    ensures TotalPreorder(Compare)
  {
    forall a, b
      ensures Compare(b, a) == Flip(Compare(a, b))
    {
      CompareReverses(a, b);
    }
    forall a, b, c
      ensures Chains(Compare(a, b), Compare(b, c), Compare(a, c))
    {
      CompareChains(a, b, c);
    }
  }

  // ---- The latest version ----------------------------------------------------------------------

  datatype MarketVersion = MarketVersion(version: string, yanked: bool)

  /** Folding `max_by` over the first `n` versions: of equal ones the later is kept. */
  function LatestOf(cmp: (string, string) -> Order, versions: seq<MarketVersion>, n: nat): Option<MarketVersion>
    requires n <= |versions|
  {
    if n == 0 then None
    else
      var best, next := LatestOf(cmp, versions, n - 1), versions[n - 1];
      if next.yanked then best
      else if best.None? then Some(next)
      else if cmp(best.value.version, next.version) == Greater then best
      else Some(next)
  }

  function Latest(versions: seq<MarketVersion>): Option<MarketVersion> {
    LatestOf(Compare, versions, |versions|)
  }

  /** Entry `i` is offered, no earlier offer is greater, and every later one is less. */
  ghost predicate LastGreatest(cmp: (string, string) -> Order, versions: seq<MarketVersion>, n: nat, i: nat)
    requires n <= |versions|
  {
    && i < n && !versions[i].yanked
    && (forall j :: 0 <= j < i && !versions[j].yanked ==> cmp(versions[j].version, versions[i].version) != Greater)
    && (forall j :: i < j < n && !versions[j].yanked ==> cmp(versions[j].version, versions[i].version) == Less)
  }

  lemma NextGreatest(
    cmp: (string, string) -> Order, versions: seq<MarketVersion>, n: nat, i: nat)
    requires TotalPreorder(cmp) && n < |versions| && LastGreatest(cmp, versions, n, i) && !versions[n].yanked
    ensures cmp(versions[i].version, versions[n].version) == Greater ==> LastGreatest(cmp, versions, n + 1, i)
    ensures cmp(versions[i].version, versions[n].version) != Greater ==> LastGreatest(cmp, versions, n + 1, n)
  {
    var best, next := versions[i].version, versions[n].version;
    assert cmp(next, best) == Flip(cmp(best, next));
    if cmp(best, next) != Greater {
      forall j | 0 <= j < n && !versions[j].yanked
        ensures cmp(versions[j].version, next) != Greater
      {
        assert cmp(best, best) == Flip(cmp(best, best));
        assert Chains(cmp(versions[j].version, best), cmp(best, next), cmp(versions[j].version, next));
      }
    }
  }

  lemma {:induction false} LatestOfIsGreatest(
    cmp: (string, string) -> Order, versions: seq<MarketVersion>, n: nat) returns (i: nat)
    requires TotalPreorder(cmp) && n <= |versions|
    ensures LatestOf(cmp, versions, n).None? ==> forall j :: 0 <= j < n ==> versions[j].yanked
    ensures LatestOf(cmp, versions, n).Some? ==>
      LastGreatest(cmp, versions, n, i) && LatestOf(cmp, versions, n).value == versions[i]
  {
    i := 0;
    if n > 0 {
      i := LatestOfIsGreatest(cmp, versions, n - 1);
      if !versions[n - 1].yanked {
        if LatestOf(cmp, versions, n - 1).None? {
          i := n - 1;
        } else {
          NextGreatest(cmp, versions, n - 1, i);
          if cmp(versions[i].version, versions[n - 1].version) != Greater {
            i := n - 1;
          }
        }
      }
    }
  }

  predicate Offered(versions: seq<MarketVersion>, v: MarketVersion) {
    v in versions && !v.yanked
  }

  /**
   Main result: the latest version is the last of the greatest that are not yanked, and there
   is none only when all are yanked.
   */
  lemma LatestIsGreatest(versions: seq<MarketVersion>)
    ensures Latest(versions).Some? <==> exists v :: Offered(versions, v)
    ensures Latest(versions).Some? ==> exists i: nat ::
      LastGreatest(Compare, versions, |versions|, i) && Latest(versions).value == versions[i]
  {
    CompareIsTotalPreorder();
    var i := LatestOfIsGreatest(Compare, versions, |versions|);
    if v :| Offered(versions, v) {
      var j :| 0 <= j < |versions| && versions[j] == v;
    }
    if Latest(versions).Some? {
      assert Offered(versions, versions[i]);
    }
  }

  lemma GreatestBeats(cmp: (string, string) -> Order, versions: seq<MarketVersion>, i: nat, v: MarketVersion)
    requires TotalPreorder(cmp) && LastGreatest(cmp, versions, |versions|, i) && Offered(versions, v)
    ensures cmp(v.version, versions[i].version) != Greater
  {
    var j :| 0 <= j < |versions| && versions[j] == v;
    assert cmp(v.version, v.version) == Flip(cmp(v.version, v.version));
  }

  lemma LatestBeatsAll(versions: seq<MarketVersion>, v: MarketVersion)
    requires Offered(versions, v)
    ensures Latest(versions).Some? && Offered(versions, Latest(versions).value)
    ensures Compare(v.version, Latest(versions).value.version) != Greater
  {
    LatestIsGreatest(versions);
    CompareIsTotalPreorder();
    var i: nat :| LastGreatest(Compare, versions, |versions|, i) && Latest(versions).value == versions[i];
    GreatestBeats(Compare, versions, i, v);
  }

  /** Main result: whatever the order of the catalog, the same version is offered, up to equal ones. */
  lemma LatestIgnoresOrder(versions: seq<MarketVersion>, shuffled: seq<MarketVersion>)
    requires multiset(versions) == multiset(shuffled)
    ensures Latest(versions).Some? <==> Latest(shuffled).Some?
    ensures Latest(versions).Some? ==>
      Compare(Latest(versions).value.version, Latest(shuffled).value.version) == Equal
  {
    forall v
      ensures Offered(versions, v) <==> Offered(shuffled, v)
    {
      assert v in versions <==> v in multiset(versions);
      assert v in shuffled <==> v in multiset(shuffled);
    }
    LatestIsGreatest(versions);
    LatestIsGreatest(shuffled);
    if v :| Offered(versions, v) {
      LatestBeatsAll(versions, v);
      LatestBeatsAll(shuffled, Latest(versions).value);
      LatestBeatsAll(versions, Latest(shuffled).value);
      CompareReverses(Latest(versions).value.version, Latest(shuffled).value.version);
    }
  }
}
