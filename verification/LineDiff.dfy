/**
 The line diff of the review engine (crates/host-core/src/review.rs): the
 longest-common-subsequence table, the greedy edit script read off it, and the
 hunks cut out of that script.
 */
module LineDiff {
  import opened Wrappers

  type Line = string
  newtype u32 = x: int | 0 <= x < 0x1_0000_0000

  const MAX_DIFF_CELLS: nat := 2_000_000
  const CONTEXT_LINES: nat := 3

  datatype DiffOp = Equal(text: Line) | Add(text: Line) | Del(text: Line)

  /** The file before the change, as an edit script sees it. */
  function OldSide(ops: seq<DiffOp>): seq<Line> {
    if ops == [] then []
    else (if ops[0].Add? then [] else [ops[0].text]) + OldSide(ops[1..])
  }

  /** The file after the change, as an edit script sees it. */
  function NewSide(ops: seq<DiffOp>): seq<Line> {
    if ops == [] then []
    else (if ops[0].Del? then [] else [ops[0].text]) + NewSide(ops[1..])
  }

  /** The lines an edit script keeps. */
  function Kept(ops: seq<DiffOp>): seq<Line> {
    if ops == [] then []
    else (if ops[0].Equal? then [ops[0].text] else []) + Kept(ops[1..])
  }

  ghost predicate IsScript(ops: seq<DiffOp>, before: seq<Line>, after: seq<Line>) {
    OldSide(ops) == before && NewSide(ops) == after
  }

  lemma {:induction false} SidesAppend(xs: seq<DiffOp>, ys: seq<DiffOp>)
    ensures OldSide(xs + ys) == OldSide(xs) + OldSide(ys)
    ensures NewSide(xs + ys) == NewSide(xs) + NewSide(ys)
  {
    OldSideAppend(xs, ys);
    NewSideAppend(xs, ys);
  }

  lemma {:induction false} OldSideAppend(xs: seq<DiffOp>, ys: seq<DiffOp>)
    ensures OldSide(xs + ys) == OldSide(xs) + OldSide(ys)
  {
    if xs == [] {
      assert xs + ys == ys;
    } else {
      var whole := xs + ys;
      assert whole[0] == xs[0] && whole[1..] == xs[1..] + ys;
      OldSideAppend(xs[1..], ys);
    }
  }

  lemma {:induction false} NewSideAppend(xs: seq<DiffOp>, ys: seq<DiffOp>)
    ensures NewSide(xs + ys) == NewSide(xs) + NewSide(ys)
  {
    if xs == [] {
      assert xs + ys == ys;
    } else {
      var whole := xs + ys;
      assert whole[0] == xs[0] && whole[1..] == xs[1..] + ys;
      NewSideAppend(xs[1..], ys);
    }
  }

  // ---- The table ----------------------------------------------------------

  /** What the table cell for the suffixes from `i` and `j` holds. */
  function LcsLen(before: seq<Line>, after: seq<Line>, i: nat, j: nat): (n: nat)
    requires i <= |before| && j <= |after|
    ensures n <= |before| - i && n <= |after| - j
    decreases |before| - i + |after| - j
  {
    if i == |before| || j == |after| then 0
    else if before[i] == after[j] then LcsLen(before, after, i + 1, j + 1) + 1
    else
      var skipOld := LcsLen(before, after, i + 1, j);
      var skipNew := LcsLen(before, after, i, j + 1);
      if skipOld >= skipNew then skipOld else skipNew
  }

  /** `s` can be obtained from `whole` by deleting lines. */
  ghost predicate Subsequence(s: seq<Line>, whole: seq<Line>)
    decreases |whole|
  {
    s == [] ||
    (whole != [] &&
     ((s[0] == whole[0] && Subsequence(s[1..], whole[1..])) || Subsequence(s, whole[1..])))
  }

  lemma {:induction false} SubsequenceDropHead(s: seq<Line>, whole: seq<Line>)
    requires s != [] && Subsequence(s, whole)
    ensures whole != [] && Subsequence(s[1..], whole[1..])
    decreases |whole|
  {
    if !(s[0] == whole[0] && Subsequence(s[1..], whole[1..])) {
      SubsequenceDropHead(s, whole[1..]);
      SubsequenceWiden(s[1..], whole[1..]);
    }
  }

  lemma SubsequenceWiden(s: seq<Line>, whole: seq<Line>)
    requires whole != [] && Subsequence(s, whole[1..])
    ensures Subsequence(s, whole)
  {
  }

  /** No common subsequence is longer than the table says. */
  lemma {:induction false} NoLongerCommonSubsequence(
    s: seq<Line>, before: seq<Line>, after: seq<Line>, i: nat, j: nat)
    requires i <= |before| && j <= |after|
    requires Subsequence(s, before[i..]) && Subsequence(s, after[j..])
    ensures |s| <= LcsLen(before, after, i, j)
    decreases |before| - i + |after| - j
  {
    if s != [] {
      assert before[i..][1..] == before[i + 1..] && after[j..][1..] == after[j + 1..];
      if before[i] == after[j] {
        SubsequenceDropHead(s, before[i..]);
        SubsequenceDropHead(s, after[j..]);
        NoLongerCommonSubsequence(s[1..], before, after, i + 1, j + 1);
      } else if s[0] != before[i] {
        NoLongerCommonSubsequence(s, before, after, i + 1, j);
      } else {
        NoLongerCommonSubsequence(s, before, after, i, j + 1);
      }
    }
  }

  // ---- The greedy script --------------------------------------------------

  /** The walk over the finished table, from positions `i` and `j`: keep equal
      lines, otherwise delete unless inserting leaves strictly more to match. */
  function GreedyFrom(before: seq<Line>, after: seq<Line>, i: nat, j: nat): seq<DiffOp>
    requires i <= |before| && j <= |after|
    decreases |before| - i + |after| - j
  {
    if i == |before| && j == |after| then []
    else if i < |before| && j < |after| && before[i] == after[j] then
      [Equal(before[i])] + GreedyFrom(before, after, i + 1, j + 1)
    else if j == |after| ||
            (i < |before| && LcsLen(before, after, i + 1, j) >= LcsLen(before, after, i, j + 1)) then
      [Del(before[i])] + GreedyFrom(before, after, i + 1, j)
    else
      [Add(after[j])] + GreedyFrom(before, after, i, j + 1)
  }

  function GreedyScript(before: seq<Line>, after: seq<Line>): seq<DiffOp> {
    GreedyFrom(before, after, 0, 0)
  }

  method DiffOps(before: seq<Line>, after: seq<Line>) returns (r: Option<seq<DiffOp>>)
    ensures r.None? <==> (|before| + 1) * (|after| + 1) > 2_000_000
    ensures r.Some? ==> r.value == GreedyScript(before, after)
  {
    if (|before| + 1) * (|after| + 1) > MAX_DIFF_CELLS {
      return None;
    }
    CellLimitBoundsLength(|before|, |after|);
    var lcs := FillTable(before, after);
    var ops := WalkTable(before, after, lcs);
    r := Some(ops);
  }

  method WalkTable(before: seq<Line>, after: seq<Line>, lcs: array2<u32>) returns (ops: seq<DiffOp>)
    requires lcs.Length0 == |before| + 1 && lcs.Length1 == |after| + 1
    requires forall i, j :: 0 <= i <= |before| && 0 <= j <= |after| ==>
      lcs[i, j] as int == LcsLen(before, after, i, j)
    ensures ops == GreedyScript(before, after)
  {
    var oldPos, newPos := 0, 0;
    ops := [];
    while oldPos < |before| || newPos < |after|
      invariant oldPos <= |before| && newPos <= |after|
      invariant ops + GreedyFrom(before, after, oldPos, newPos) == GreedyScript(before, after)
      decreases |before| - oldPos + |after| - newPos
    {
      if oldPos < |before| && newPos < |after| && before[oldPos] == after[newPos] {
        Regroup(ops, Equal(before[oldPos]), GreedyFrom(before, after, oldPos + 1, newPos + 1));
        ops := ops + [Equal(before[oldPos])];
        oldPos := oldPos + 1;
        newPos := newPos + 1;
      } else if newPos == |after| || (oldPos < |before| && lcs[oldPos + 1, newPos] >= lcs[oldPos, newPos + 1]) {
        Regroup(ops, Del(before[oldPos]), GreedyFrom(before, after, oldPos + 1, newPos));
        ops := ops + [Del(before[oldPos])];
        oldPos := oldPos + 1;
      } else {
        Regroup(ops, Add(after[newPos]), GreedyFrom(before, after, oldPos, newPos + 1));
        ops := ops + [Add(after[newPos])];
        newPos := newPos + 1;
      }
    }
    assert ops + [] == ops;
  }

  lemma Regroup<T>(done: seq<T>, x: T, rest: seq<T>)
    ensures done + ([x] + rest) == done + [x] + rest
  {
  }

  /** The nested loops that fill the table from its last row and column. */
  method FillTable(before: seq<Line>, after: seq<Line>) returns (lcs: array2<u32>)
    requires |before| < MAX_DIFF_CELLS
    ensures lcs.Length0 == |before| + 1 && lcs.Length1 == |after| + 1
    ensures forall i, j :: 0 <= i <= |before| && 0 <= j <= |after| ==>
      lcs[i, j] as int == LcsLen(before, after, i, j)
  {
    var n, m := |before|, |after|;
    lcs := new u32[n + 1, m + 1]((i, j) => 0);
    for oldPos := n downto 0
      invariant forall i :: 0 <= i <= n ==> lcs[i, m] == 0
      invariant forall i, j {:trigger lcs[i, j]} :: oldPos <= i <= n && 0 <= j <= m ==>
        lcs[i, j] as int == LcsLen(before, after, i, j)
    {
      for newPos := m downto 0
        invariant forall i :: 0 <= i <= n ==> lcs[i, m] == 0
        invariant forall i, j {:trigger lcs[i, j]} :: oldPos + 1 <= i <= n && 0 <= j <= m ==>
          lcs[i, j] as int == LcsLen(before, after, i, j)
        invariant forall j {:trigger lcs[oldPos, j]} :: newPos <= j <= m ==>
          lcs[oldPos, j] as int == LcsLen(before, after, oldPos, j)
      {
        lcs[oldPos, newPos] :=
          if before[oldPos] == after[newPos] then lcs[oldPos + 1, newPos + 1] + 1
          else if lcs[oldPos + 1, newPos] >= lcs[oldPos, newPos + 1] then lcs[oldPos + 1, newPos]
          else lcs[oldPos, newPos + 1];
      }
    }
  }

  lemma CellLimitBoundsLength(n: nat, m: nat)
    requires (n + 1) * (m + 1) <= MAX_DIFF_CELLS
    ensures n < MAX_DIFF_CELLS
  {
    assert (n + 1) * (m + 1) == (n + 1) * m + (n + 1);
  }

  /** The script turns one suffix into the other and keeps as many lines as the table promises. */
  lemma {:induction false} GreedyIsScript(before: seq<Line>, after: seq<Line>, i: nat, j: nat)
    requires i <= |before| && j <= |after|
    ensures IsScript(GreedyFrom(before, after, i, j), before[i..], after[j..])
    ensures |Kept(GreedyFrom(before, after, i, j))| == LcsLen(before, after, i, j)
    decreases |before| - i + |after| - j
  {
    if i == |before| && j == |after| {
    } else if i < |before| && j < |after| && before[i] == after[j] {
      GreedyIsScript(before, after, i + 1, j + 1);
      assert before[i..] == [before[i]] + before[i + 1..] && after[j..] == [after[j]] + after[j + 1..];
    } else if j == |after| ||
              (i < |before| && LcsLen(before, after, i + 1, j) >= LcsLen(before, after, i, j + 1)) {
      GreedyIsScript(before, after, i + 1, j);
      assert before[i..] == [before[i]] + before[i + 1..];
    } else {
      GreedyIsScript(before, after, i, j + 1);
      assert after[j..] == [after[j]] + after[j + 1..];
    }
  }

  lemma {:induction false} KeptIsCommon(ops: seq<DiffOp>)
    ensures Subsequence(Kept(ops), OldSide(ops)) && Subsequence(Kept(ops), NewSide(ops))
    ensures Additions(ops) == |NewSide(ops)| - |Kept(ops)|
    ensures Deletions(ops) == |OldSide(ops)| - |Kept(ops)|
  {
    if ops != [] {
      KeptIsCommon(ops[1..]);
      var s, oldPos, newPos := Kept(ops), OldSide(ops), NewSide(ops);
      match ops[0]
      case Equal(_) =>
        assert s[1..] == Kept(ops[1..]) && oldPos[1..] == OldSide(ops[1..]) && newPos[1..] == NewSide(ops[1..]);
      case Add(_) =>
        assert s == Kept(ops[1..]) && oldPos == OldSide(ops[1..]) && newPos[1..] == NewSide(ops[1..]);
      case Del(_) =>
        assert s == Kept(ops[1..]) && oldPos[1..] == OldSide(ops[1..]) && newPos == NewSide(ops[1..]);
    }
  }

  function Additions(ops: seq<DiffOp>): nat {
    if ops == [] then 0 else (if ops[0].Add? then 1 else 0) + Additions(ops[1..])
  }

  function Deletions(ops: seq<DiffOp>): nat {
    if ops == [] then 0 else (if ops[0].Del? then 1 else 0) + Deletions(ops[1..])
  }

  lemma {:induction false} CountsAppend(xs: seq<DiffOp>, op: DiffOp)
    ensures Additions(xs + [op]) == Additions(xs) + if op.Add? then 1 else 0
    ensures Deletions(xs + [op]) == Deletions(xs) + if op.Del? then 1 else 0
  {
    if xs == [] {
      assert xs + [op] == [op];
    } else {
      assert (xs + [op])[1..] == xs[1..] + [op];
      CountsAppend(xs[1..], op);
    }
  }

  method LineCounts(ops: seq<DiffOp>) returns (additions: nat, deletions: nat)
    ensures additions == Additions(ops) && deletions == Deletions(ops)
    ensures additions + |OldSide(ops)| == deletions + |NewSide(ops)|
  {
    additions, deletions := 0, 0;
    for i := 0 to |ops|
      invariant additions == Additions(ops[..i]) && deletions == Deletions(ops[..i])
    {
      assert ops[..i + 1] == ops[..i] + [ops[i]];
      CountsAppend(ops[..i], ops[i]);
      match ops[i]
      case Add(_) => additions := additions + 1;
      case Del(_) => deletions := deletions + 1;
      case Equal(_) =>
    }
    assert ops[..|ops|] == ops;
    KeptIsCommon(ops);
  }

  /** Main result: what the script keeps is a longest common subsequence, so
      no edit script between the two files adds or deletes fewer lines. */
  lemma DiffIsMinimal(before: seq<Line>, after: seq<Line>)
    ensures var ops := GreedyScript(before, after);
      && IsScript(ops, before, after)
      && Subsequence(Kept(ops), before) && Subsequence(Kept(ops), after)
      && (forall s :: Subsequence(s, before) && Subsequence(s, after) ==> |s| <= |Kept(ops)|)
      && (forall other :: IsScript(other, before, after) ==>
            Additions(ops) <= Additions(other) && Deletions(ops) <= Deletions(other))
  {
    var ops := GreedyScript(before, after);
    assert before[0..] == before && after[0..] == after;
    GreedyIsScript(before, after, 0, 0);
    KeptIsCommon(ops);
    forall s | Subsequence(s, before) && Subsequence(s, after)
      ensures |s| <= |Kept(ops)|
    {
      NoLongerCommonSubsequence(s, before, after, 0, 0);
    }
    forall other | IsScript(other, before, after)
      ensures Additions(ops) <= Additions(other) && Deletions(ops) <= Deletions(other)
    {
      KeptIsCommon(other);
      NoLongerCommonSubsequence(Kept(other), before, after, 0, 0);
    }
  }

  lemma {:induction false} SkippingOldLosesAtMostOne(before: seq<Line>, after: seq<Line>, i: nat, j: nat)
    requires i < |before| && j <= |after|
    ensures LcsLen(before, after, i + 1, j) <= LcsLen(before, after, i, j) <= LcsLen(before, after, i + 1, j) + 1
    decreases |before| - i + |after| - j
  {
    if j < |after| {
      if before[i] == after[j] {
        SkippingNewLosesAtMostOne(before, after, i + 1, j);
      } else {
        SkippingOldLosesAtMostOne(before, after, i, j + 1);
        SkippingNewLosesAtMostOne(before, after, i + 1, j);
      }
    }
  }

  lemma {:induction false} SkippingNewLosesAtMostOne(before: seq<Line>, after: seq<Line>, i: nat, j: nat)
    requires i <= |before| && j < |after|
    ensures LcsLen(before, after, i, j + 1) <= LcsLen(before, after, i, j) <= LcsLen(before, after, i, j + 1) + 1
    decreases |before| - i + |after| - j
  {
    if i < |before| {
      if before[i] == after[j] {
        SkippingOldLosesAtMostOne(before, after, i, j + 1);
      } else {
        SkippingNewLosesAtMostOne(before, after, i + 1, j);
        SkippingOldLosesAtMostOne(before, after, i, j + 1);
      }
    }
  }

  /** An inserted line is never followed directly by a deleted one: every
      changed block lists all its deletions before all its insertions. */
  lemma {:induction false} DeletionsComeFirst(before: seq<Line>, after: seq<Line>, i: nat, j: nat, at: nat)
    requires i <= |before| && j <= |after| && at + 1 < |GreedyFrom(before, after, i, j)|
    ensures var ops := GreedyFrom(before, after, i, j); !(ops[at].Add? && ops[at + 1].Del?)
    decreases |before| - i + |after| - j
  {
    if i < |before| && j < |after| && before[i] == after[j] {
      if at > 0 { DeletionsComeFirst(before, after, i + 1, j + 1, at - 1); }
    } else if j == |after| ||
              (i < |before| && LcsLen(before, after, i + 1, j) >= LcsLen(before, after, i, j + 1)) {
      if at > 0 { DeletionsComeFirst(before, after, i + 1, j, at - 1); }
    } else if at > 0 {
      DeletionsComeFirst(before, after, i, j + 1, at - 1);
    } else if i < |before| {
      SkippingNewLosesAtMostOne(before, after, i + 1, j);
    }
  }
}
