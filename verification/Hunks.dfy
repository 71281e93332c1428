/**
 Hunks of the review engine (crates/host-core/src/review.rs): windows of
 context around every changed op, merged into ranges, each range printed with
 the line numbers of its header. A reference patch program, which only sees the
 old file and the hunks, rebuilds the new file.
 */
module Hunks {
  import opened LineDiff
  import opened Wrappers

  /** Half-open range of op indices. */
  datatype Range = Range(start: nat, end: nat)

  /** `@@ -oldStart,oldLen +newStart,newLen @@` and the lines under it. */
  datatype Hunk = Hunk(oldStart: nat, oldLen: nat, newStart: nat, newLen: nat, lines: seq<DiffOp>)

  predicate Changed(ops: seq<DiffOp>, i: int) {
    0 <= i < |ops| && !ops[i].Equal?
  }

  /** `p` is one of the ops within three positions of a changed op. */
  ghost predicate NearChange(ops: seq<DiffOp>, p: int) {
    0 <= p < |ops| && exists c :: Changed(ops, c) && c - 3 <= p <= c + 3
  }

  ghost predicate InSome(ranges: seq<Range>, p: int) {
    exists k :: 0 <= k < |ranges| && ranges[k].start <= p < ranges[k].end
  }

  /** Non-empty, in order, and with at least one op between neighbours. */
  ghost predicate Separated(ranges: seq<Range>, n: nat) {
    (forall k :: 0 <= k < |ranges| ==> ranges[k].start < ranges[k].end <= n) &&
    (forall j, k :: 0 <= j < k < |ranges| ==> ranges[j].end < ranges[k].start)
  }

  /** The merged ranges: separated, and covering exactly what is near a change. */
  ghost predicate Merged(ops: seq<DiffOp>, ranges: seq<Range>) {
    Separated(ranges, |ops|) && forall p :: InSome(ranges, p) <==> NearChange(ops, p)
  }

  function HunkOf(ops: seq<DiffOp>, r: Range): Hunk
    requires r.start <= r.end <= |ops|
  {
    Hunk(|OldSide(ops[..r.start])| + 1, |OldSide(ops[r.start..r.end])|,
         |NewSide(ops[..r.start])| + 1, |NewSide(ops[r.start..r.end])|,
         ops[r.start..r.end])
  }

  function HunksOf(ops: seq<DiffOp>, ranges: seq<Range>): (hunks: seq<Hunk>)
    requires forall r :: r in ranges ==> r.start <= r.end <= |ops|
    ensures |hunks| == |ranges|
    ensures forall k :: 0 <= k < |ranges| ==> hunks[k] == HunkOf(ops, ranges[k])
  {
    if ranges == [] then [] else [HunkOf(ops, ranges[0])] + HunksOf(ops, ranges[1..])
  }

  // ---- The program --------------------------------------------------------

  method MakeHunks(ops: seq<DiffOp>) returns (hunks: seq<Hunk>)
    ensures exists ranges :: Merged(ops, ranges) && hunks == HunksOf(ops, ranges)
  {
    var changed := ChangedIndices(ops);
    if changed == [] {
      assert Merged(ops, []);
      return [];
    }
    var ranges := MergeWindows(ops, changed);
    hunks := PrintHunks(ops, ranges);
  }

  method PrintHunks(ops: seq<DiffOp>, ranges: seq<Range>) returns (hunks: seq<Hunk>)
    requires forall r :: r in ranges ==> r.start <= r.end <= |ops|
    ensures hunks == HunksOf(ops, ranges)
  {
    hunks := [];
    ghost var all := HunksOf(ops, ranges);
    for k := 0 to |ranges|
      invariant |hunks| == k
      invariant forall i :: 0 <= i < k ==> hunks[i] == all[i]
    {
      hunks := hunks + [HunkOf(ops, ranges[k])];
    }
  }

  method ChangedIndices(ops: seq<DiffOp>) returns (changed: seq<nat>)
    ensures forall j, k :: 0 <= j < k < |changed| ==> changed[j] < changed[k]
    ensures forall i :: i in changed <==> Changed(ops, i)
  {
    changed := [];
    for i := 0 to |ops|
      invariant forall j, k :: 0 <= j < k < |changed| ==> changed[j] < changed[k]
      invariant forall k :: 0 <= k < |changed| ==> changed[k] < i
      invariant forall c :: c in changed <==> c < i && Changed(ops, c)
    {
      if !ops[i].Equal? {
        changed := changed + [i];
      }
    }
  }

  /** Covered by the window of one of the first `m` changed ops. */
  ghost predicate NearFirst(changed: seq<nat>, m: nat, n: nat, p: int)
    requires m <= |changed|
  {
    0 <= p < n && exists k :: 0 <= k < m && changed[k] - CONTEXT_LINES <= p <= changed[k] + CONTEXT_LINES
  }

  method MergeWindows(ops: seq<DiffOp>, changed: seq<nat>) returns (ranges: seq<Range>)
    requires forall j, k :: 0 <= j < k < |changed| ==> changed[j] < changed[k]
    requires forall i :: i in changed <==> Changed(ops, i)
    ensures Merged(ops, ranges)
  {
    ranges := [];
    for m := 0 to |changed|
      invariant m == 0 <==> ranges == []
      invariant Separated(ranges, |ops|)
      invariant m > 0 ==> ranges[|ranges| - 1].start <= WindowStart(changed[m - 1])
      invariant m > 0 ==> ranges[|ranges| - 1].end == WindowEnd(changed[m - 1], |ops|)
      invariant forall p :: InSome(ranges, p) <==> NearFirst(changed, m, |ops|, p)
    {
      var index := changed[m];
      assert index in changed;
      var start := WindowStart(index);
      var end := WindowEnd(index, |ops|);
      ghost var prior := ranges;
      var last := |ranges| - 1;
      if |ranges| > 0 && start <= ranges[last].end {
        var longer := if ranges[last].end >= end then ranges[last].end else end;
        ranges := ranges[last := Range(ranges[last].start, longer)];
        ExtendLast(prior, start, longer, |ops|);
      } else {
        ranges := ranges + [Range(start, end)];
        PushRange(prior, Range(start, end), |ops|);
      }
      NearNext(changed, m, |ops|, start, end);
    }
    NearAll(ops, changed);
  }

  function WindowStart(index: nat): nat {
    if index >= CONTEXT_LINES then index - CONTEXT_LINES else 0
  }

  function WindowEnd(index: nat, n: nat): nat {
    if index + CONTEXT_LINES + 1 <= n then index + CONTEXT_LINES + 1 else n
  }

  lemma NearAll(ops: seq<DiffOp>, changed: seq<nat>)
    requires forall i :: i in changed <==> Changed(ops, i)
    ensures forall p :: NearFirst(changed, |changed|, |ops|, p) <==> NearChange(ops, p)
  {
    forall p
      ensures NearFirst(changed, |changed|, |ops|, p) <==> NearChange(ops, p)
    {
      if NearChange(ops, p) {
        var c :| Changed(ops, c) && c - CONTEXT_LINES <= p <= c + CONTEXT_LINES;
        assert c in changed;
      }
      if NearFirst(changed, |changed|, |ops|, p) {
        var k :| 0 <= k < |changed| && changed[k] - CONTEXT_LINES <= p <= changed[k] + CONTEXT_LINES;
        assert changed[k] in changed;
      }
    }
  }

  lemma NearNext(changed: seq<nat>, m: nat, n: nat, start: nat, end: nat)
    requires m < |changed| && end == WindowEnd(changed[m], n)
    requires start == WindowStart(changed[m])
    ensures forall p :: NearFirst(changed, m + 1, n, p) <==> NearFirst(changed, m, n, p) || (start <= p < end)
  {
    forall p {:trigger NearFirst(changed, m + 1, n, p)} | start <= p < end
      ensures NearFirst(changed, m + 1, n, p)
    {
      assert changed[m] - CONTEXT_LINES <= p <= changed[m] + CONTEXT_LINES;
    }
  }

  lemma ExtendLast(ranges: seq<Range>, start: nat, end: nat, n: nat)
    requires Separated(ranges, n) && end <= n
    requires ranges != [] && ranges[|ranges| - 1].start <= start <= ranges[|ranges| - 1].end <= end
    ensures var last := |ranges| - 1; var longer := ranges[last := Range(ranges[last].start, end)];
      Separated(longer, n) && forall p :: InSome(longer, p) <==> InSome(ranges, p) || (start <= p < end)
  {
    var last := |ranges| - 1;
    var longer := ranges[last := Range(ranges[last].start, end)];
    forall p | InSome(ranges, p) || (start <= p < end)
      ensures InSome(longer, p)
    {
      if start <= p < end {
        assert longer[last].start <= p < longer[last].end;
      } else {
        var k :| 0 <= k < |ranges| && ranges[k].start <= p < ranges[k].end;
        assert longer[k].start <= p < longer[k].end;
      }
    }
    forall p | InSome(longer, p)
      ensures InSome(ranges, p) || (start <= p < end)
    {
      var k :| 0 <= k < |longer| && longer[k].start <= p < longer[k].end;
      assert k < last ==> longer[k] == ranges[k];
      assert k == last && p < start ==> ranges[k].start <= p < ranges[k].end;
    }
  }

  lemma PushRange(ranges: seq<Range>, r: Range, n: nat)
    requires Separated(ranges, n) && r.start < r.end <= n
    requires ranges != [] ==> ranges[|ranges| - 1].end < r.start
    ensures Separated(ranges + [r], n)
    ensures forall p :: InSome(ranges + [r], p) <==> InSome(ranges, p) || (r.start <= p < r.end)
  {
    var more := ranges + [r];
    forall p | InSome(ranges, p) || (r.start <= p < r.end)
      ensures InSome(more, p)
    {
      if r.start <= p < r.end {
        assert more[|ranges|] == r;
      } else {
        var k :| 0 <= k < |ranges| && ranges[k].start <= p < ranges[k].end;
        assert more[k] == ranges[k];
      }
    }
  }

  // ---- The merged ranges are determined by the script -----------------------

  lemma {:induction false} SameCover(r1: seq<Range>, r2: seq<Range>, n: nat)
    requires Separated(r1, n) && Separated(r2, n)
    requires forall p :: InSome(r1, p) <==> InSome(r2, p)
    ensures r1 == r2
  {
    if r1 == [] || r2 == [] {
      assert r1 != [] ==> InSome(r1, r1[0].start);
      assert r2 != [] ==> InSome(r2, r2[0].start);
    } else {
      assert InSome(r1, r1[0].start) && InSome(r2, r2[0].start);
      assert !InSome(r1, r1[0].end) && !InSome(r2, r2[0].end);
      assert r1[0] == r2[0];
      DropFirst(r1, n);
      DropFirst(r2, n);
      SameCover(r1[1..], r2[1..], n);
    }
  }

  lemma DropFirst(r: seq<Range>, n: nat)
    requires r != [] && Separated(r, n)
    ensures Separated(r[1..], n)
    ensures forall p :: InSome(r[1..], p) <==> InSome(r, p) && p >= r[0].end
  {
    var rest := r[1..];
    forall p | InSome(rest, p)
      ensures InSome(r, p) && p >= r[0].end
    {
      var k :| 0 <= k < |rest| && rest[k].start <= p < rest[k].end;
      assert r[k + 1] == rest[k];
    }
    forall p | InSome(r, p) && p >= r[0].end
      ensures InSome(rest, p)
    {
      var k :| 0 <= k < |r| && r[k].start <= p < r[k].end;
      assert rest[k - 1] == r[k];
    }
  }

  /** Only one list of ranges can be the merged one; each range begins and ends
      with a context of at most three unchanged ops. */
  lemma MergedIsUnique(ops: seq<DiffOp>, r1: seq<Range>, r2: seq<Range>)
    requires Merged(ops, r1) && Merged(ops, r2)
    ensures r1 == r2
    ensures forall r :: r in r1 ==>
      (exists c :: Changed(ops, c) && r.start <= c <= r.start + 3) &&
      (exists c :: Changed(ops, c) && c < r.end <= c + 4)
  {
    SameCover(r1, r2, |ops|);
    forall r | r in r1
      ensures exists c :: Changed(ops, c) && r.start <= c <= r.start + 3
      ensures exists c :: Changed(ops, c) && c < r.end <= c + 4
    {
      var k :| 0 <= k < |r1| && r1[k] == r;
      EdgeContext(ops, r1, k);
    }
  }

  lemma EdgeContext(ops: seq<DiffOp>, ranges: seq<Range>, k: nat)
    requires Merged(ops, ranges) && k < |ranges|
    ensures exists c :: Changed(ops, c) && ranges[k].start <= c <= ranges[k].start + 3
    ensures exists c :: Changed(ops, c) && c < ranges[k].end <= c + 4
  {
    var r := ranges[k];
    assert InSome(ranges, r.start) && InSome(ranges, r.end - 1);
    var first :| Changed(ops, first) && first - CONTEXT_LINES <= r.start <= first + CONTEXT_LINES;
    var last :| Changed(ops, last) && last - CONTEXT_LINES <= r.end - 1 <= last + CONTEXT_LINES;
    NotJustOutside(ranges, k, |ops|);
    assert !NearChange(ops, r.start - 1) && !NearChange(ops, r.end);
    assert first >= r.start && last < r.end;
  }

  lemma NotJustOutside(ranges: seq<Range>, k: nat, n: nat)
    requires Separated(ranges, n) && k < |ranges|
    ensures !InSome(ranges, ranges[k].start - 1) && !InSome(ranges, ranges[k].end)
  {
  }

  // ---- A reference patch program -------------------------------------------

  /** The hunk sits where its header says, on both sides, and its old lines are
      the lines found there; `out` lines have been written for the first `at`. */
  predicate Fits(file: seq<Line>, at: nat, out: nat, h: Hunk) {
    && at < h.oldStart && h.oldStart - 1 + h.oldLen <= |file|
    && out + (h.oldStart - 1 - at) == h.newStart - 1
    && file[h.oldStart - 1..h.oldStart - 1 + h.oldLen] == OldSide(h.lines)
    && h.newLen == |NewSide(h.lines)|
  }

  /** Applies hunks to the lines of `file` from `at` on. */
  function Patch(file: seq<Line>, at: nat, out: nat, hunks: seq<Hunk>): Option<seq<Line>>
    requires at <= |file|
    decreases |hunks|
  {
    if hunks == [] then Some(file[at..])
    else
      var h := hunks[0];
      if !Fits(file, at, out, h) then None
      else
        match Patch(file, h.oldStart - 1 + h.oldLen, h.newStart - 1 + h.newLen, hunks[1..])
        case None => None
        case Some(rest) => Some(file[at..h.oldStart - 1] + NewSide(h.lines) + rest)
  }

  lemma {:induction false} UnchangedGap(ops: seq<DiffOp>)
    requires forall i :: 0 <= i < |ops| ==> ops[i].Equal?
    ensures OldSide(ops) == NewSide(ops)
  {
    if ops != [] {
      UnchangedGap(ops[1..]);
    }
  }

  /** Both sides of a script cut at a position. */
  lemma CutPrefix(ops: seq<DiffOp>, p: nat, q: nat)
    requires p <= q <= |ops|
    ensures OldSide(ops[..q]) == OldSide(ops[..p]) + OldSide(ops[p..q])
    ensures NewSide(ops[..q]) == NewSide(ops[..p]) + NewSide(ops[p..q])
  {
    assert ops[..q] == ops[..p] + ops[p..q];
    SidesAppend(ops[..p], ops[p..q]);
  }

  lemma CutSuffix(ops: seq<DiffOp>, p: nat, q: nat)
    requires p <= q <= |ops|
    ensures NewSide(ops[p..]) == NewSide(ops[p..q]) + NewSide(ops[q..])
  {
    assert ops[p..] == ops[p..q] + ops[q..];
    NewSideAppend(ops[p..q], ops[q..]);
  }

  lemma CutWhole(ops: seq<DiffOp>, q: nat)
    requires q <= |ops|
    ensures OldSide(ops) == OldSide(ops[..q]) + OldSide(ops[q..])
  {
    assert ops == ops[..q] + ops[q..];
    OldSideAppend(ops[..q], ops[q..]);
  }

  lemma Middles<T>(whole: seq<T>, a: seq<T>, b: seq<T>, c: seq<T>, d: seq<T>)
    requires whole == a + b + c + d
    ensures |whole| == |a| + |b| + |c| + |d|
    ensures whole[|a|..|a| + |b|] == b
    ensures whole[|a| + |b|..|a| + |b| + |c|] == c
  {
  }

  /** Patching resumes correctly at any op `p` that only the remaining ranges still have to change. */
  lemma {:induction false} PatchFrom(ops: seq<DiffOp>, p: nat, ranges: seq<Range>)
    requires p <= |ops| && Separated(ranges, |ops|)
    requires ranges != [] ==> p <= ranges[0].start
    requires forall i :: p <= i < |ops| && Changed(ops, i) ==> InSome(ranges, i)
    ensures |OldSide(ops[..p])| <= |OldSide(ops)|
    ensures Patch(OldSide(ops), |OldSide(ops[..p])|, |NewSide(ops[..p])|, HunksOf(ops, ranges))
      == Some(NewSide(ops[p..]))
    decreases |ranges|
  {
    CutWhole(ops, p);
    if ranges == [] {
      UntouchedGap(ops, p, |ops|, ranges);
      assert ops[p..|ops|] == ops[p..];
      assert OldSide(ops)[|OldSide(ops[..p])|..] == OldSide(ops[p..]);
    } else {
      var r := ranges[0];
      DropFirst(ranges, |ops|);
      PatchFrom(ops, r.end, ranges[1..]);
      PatchOneMore(ops, p, r, HunksOf(ops, ranges[1..]), ranges);
    }
  }

  /** Nothing changes before the next range. */
  lemma UntouchedGap(ops: seq<DiffOp>, p: nat, q: nat, ranges: seq<Range>)
    requires p <= q <= |ops| && Separated(ranges, |ops|)
    requires ranges != [] ==> q <= ranges[0].start
    requires forall i :: p <= i < |ops| && Changed(ops, i) ==> InSome(ranges, i)
    ensures OldSide(ops[p..q]) == NewSide(ops[p..q])
  {
    forall i | p <= i < q
      ensures ops[i].Equal?
    {
      assert !InSome(ranges, i);
    }
    UnchangedGap(ops[p..q]);
  }

  lemma PatchOneMore(ops: seq<DiffOp>, p: nat, r: Range, tail: seq<Hunk>, ranges: seq<Range>)
    requires Separated(ranges, |ops|) && ranges != [] && r == ranges[0] && p <= r.start
    requires forall i :: p <= i < |ops| && Changed(ops, i) ==> InSome(ranges, i)
    requires |OldSide(ops[..r.end])| <= |OldSide(ops)| && |OldSide(ops[..p])| <= |OldSide(ops)|
    requires Patch(OldSide(ops), |OldSide(ops[..r.end])|, |NewSide(ops[..r.end])|, tail)
      == Some(NewSide(ops[r.end..]))
    ensures Patch(OldSide(ops), |OldSide(ops[..p])|, |NewSide(ops[..p])|, [HunkOf(ops, r)] + tail)
      == Some(NewSide(ops[p..]))
  {
    RangeFits(ops, p, r, ranges);
    NewSideOfTail(ops, p, r, NewSide(ops[p..r.start]));
    var h := HunkOf(ops, r);
    PatchCons(OldSide(ops), |OldSide(ops[..p])|, |NewSide(ops[..p])|, h, tail, NewSide(ops[r.end..]));
  }

  lemma PatchCons(file: seq<Line>, at: nat, out: nat, h: Hunk, tail: seq<Hunk>, rest: seq<Line>)
    requires Fits(file, at, out, h)
    requires Patch(file, h.oldStart - 1 + h.oldLen, h.newStart - 1 + h.newLen, tail) == Some(rest)
    ensures Patch(file, at, out, [h] + tail) == Some(file[at..h.oldStart - 1] + NewSide(h.lines) + rest)
  {
    var hunks := [h] + tail;
    assert hunks[0] == h && hunks[1..] == tail;
  }

  lemma RangeFits(ops: seq<DiffOp>, p: nat, r: Range, ranges: seq<Range>)
    requires Separated(ranges, |ops|) && ranges != [] && r == ranges[0] && p <= r.start
    requires forall i :: p <= i < |ops| && Changed(ops, i) ==> InSome(ranges, i)
    ensures var h := HunkOf(ops, r); var file := OldSide(ops);
      && Fits(file, |OldSide(ops[..p])|, |NewSide(ops[..p])|, h)
      && file[|OldSide(ops[..p])|..h.oldStart - 1] == NewSide(ops[p..r.start])
      && h.oldStart - 1 + h.oldLen == |OldSide(ops[..r.end])|
      && h.newStart - 1 + h.newLen == |NewSide(ops[..r.end])|
  {
    UntouchedGap(ops, p, r.start, ranges);
    CutPrefix(ops, p, r.start);
    CutPrefix(ops, r.start, r.end);
    CutWhole(ops, r.end);
    Middles(OldSide(ops), OldSide(ops[..p]), OldSide(ops[p..r.start]),
            OldSide(ops[r.start..r.end]), OldSide(ops[r.end..]));
  }

  lemma NewSideOfTail(ops: seq<DiffOp>, p: nat, r: Range, gap: seq<Line>)
    requires p <= r.start <= r.end <= |ops| && gap == NewSide(ops[p..r.start])
    ensures NewSide(ops[p..]) == gap + NewSide(ops[r.start..r.end]) + NewSide(ops[r.end..])
  {
    var tail := NewSide(ops[r.start..]);
    assert NewSide(ops[p..]) == gap + tail by {
      CutSuffix(ops, p, r.start);
    }
    assert tail == NewSide(ops[r.start..r.end]) + NewSide(ops[r.end..]) by {
      CutSuffix(ops, r.start, r.end);
    }
  }

  // ---- Reading a patch backwards -------------------------------------------

  function InverseOp(op: DiffOp): DiffOp {
    match op
    case Equal(t) => Equal(t)
    case Add(t) => Del(t)
    case Del(t) => Add(t)
  }

  function Inverse(ops: seq<DiffOp>): seq<DiffOp> {
    seq(|ops|, i requires 0 <= i < |ops| => InverseOp(ops[i]))
  }

  function InverseHunk(h: Hunk): Hunk {
    Hunk(h.newStart, h.newLen, h.oldStart, h.oldLen, Inverse(h.lines))
  }

  lemma {:induction false} InverseSides(ops: seq<DiffOp>)
    ensures OldSide(Inverse(ops)) == NewSide(ops) && NewSide(Inverse(ops)) == OldSide(ops)
  {
    if ops != [] {
      InverseSides(ops[1..]);
      assert Inverse(ops)[1..] == Inverse(ops[1..]);
    }
  }

  lemma InverseHunkOf(ops: seq<DiffOp>, r: Range)
    requires r.start <= r.end <= |ops|
    ensures HunkOf(Inverse(ops), r) == InverseHunk(HunkOf(ops, r))
  {
    assert Inverse(ops)[..r.start] == Inverse(ops[..r.start]);
    assert Inverse(ops)[r.start..r.end] == Inverse(ops[r.start..r.end]);
    InverseSides(ops[..r.start]);
    InverseSides(ops[r.start..r.end]);
  }

  lemma PatchWhole(ops: seq<DiffOp>, ranges: seq<Range>)
    requires Separated(ranges, |ops|)
    requires forall i :: Changed(ops, i) ==> InSome(ranges, i)
    ensures Patch(OldSide(ops), 0, 0, HunksOf(ops, ranges)) == Some(NewSide(ops))
  {
    PatchFrom(ops, 0, ranges);
    assert ops[0..] == ops && ops[..0] == [];
  }

  lemma ChangesCovered(ops: seq<DiffOp>, ranges: seq<Range>)
    requires Merged(ops, ranges)
    ensures forall i :: Changed(ops, i) ==> InSome(ranges, i)
  {
    forall i | Changed(ops, i)
      ensures InSome(ranges, i)
    {
      assert NearChange(ops, i);
    }
  }

  /** Main result: the hunks shown for a change rebuild the new file from the
      old one, and read backwards rebuild the old file from the new one. */
  lemma HunksRebuildBothFiles(before: seq<Line>, after: seq<Line>, ranges: seq<Range>, back: seq<Hunk>)
    requires Merged(GreedyScript(before, after), ranges)
    requires var hunks := HunksOf(GreedyScript(before, after), ranges);
      |back| == |hunks| && forall k :: 0 <= k < |hunks| ==> back[k] == InverseHunk(hunks[k])
    ensures Patch(before, 0, 0, HunksOf(GreedyScript(before, after), ranges)) == Some(after)
    ensures Patch(after, 0, 0, back) == Some(before)
  {
    var ops := GreedyScript(before, after);
    var inv := Inverse(ops);
    DiffIsMinimal(before, after);
    ChangesCovered(ops, ranges);
    PatchWhole(ops, ranges);
    InverseSides(ops);
    forall i | Changed(inv, i)
      ensures InSome(ranges, i)
    {
      assert Changed(ops, i);
    }
    PatchWhole(inv, ranges);
    InverseHunksOf(ops, ranges, back);
  }

  lemma InverseHunksOf(ops: seq<DiffOp>, ranges: seq<Range>, back: seq<Hunk>)
    requires forall r :: r in ranges ==> r.start <= r.end <= |ops|
    requires |back| == |ranges|
    requires forall k :: 0 <= k < |ranges| ==> back[k] == InverseHunk(HunkOf(ops, ranges[k]))
    ensures HunksOf(Inverse(ops), ranges) == back
  {
    forall k | 0 <= k < |ranges|
      ensures HunkOf(Inverse(ops), ranges[k]) == back[k]
    {
      InverseHunkOf(ops, ranges[k]);
    }
  }
}
