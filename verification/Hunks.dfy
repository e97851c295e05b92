/** Grouping an edit script into unified-diff hunks, and what a hunk list does to a file. */
module Hunks {
  import opened Options
  import opened LineDiff

  /** 1-based first line numbers in the old and new file, and a slice of the script. */
  datatype Hunk = Hunk(oldStart: int, newStart: int, ops: seq<Op>)

  datatype Window = Window(start: nat, end: nat)

  predicate Changed(ops: seq<Op>, i: int) {
    0 <= i < |ops| && ops[i].kind != Equal
  }

  /** i is within `context` lines of a change. */
  ghost predicate Near(ops: seq<Op>, context: nat, i: int) {
    0 <= i < |ops| && exists j :: Changed(ops, j) && j - context <= i <= j + context
  }

  predicate Inside(w: Window, i: int) {
    w.start <= i < w.end
  }

  ghost predicate InSome(ws: seq<Window>, i: int) {
    exists m :: 0 <= m < |ws| && Inside(ws[m], i)
  }

  ghost predicate HasChange(ops: seq<Op>, w: Window) {
    exists i :: Inside(w, i) && Changed(ops, i)
  }

  /** In order, with at least one line between neighbours, each around some change. */
  ghost predicate Separated(ops: seq<Op>, ws: seq<Window>) {
    && (forall m :: 0 <= m < |ws| ==> ws[m].start < ws[m].end <= |ops| && HasChange(ops, ws[m]))
    && (forall m, n :: 0 <= m < n < |ws| ==> ws[m].end < ws[n].start)
  }

  /** The maximal runs of changed lines in ops[..n]. */
  ghost predicate RunsOfChanges(ops: seq<Op>, regions: seq<Window>, n: nat) {
    && n <= |ops|
    && (forall m :: 0 <= m < |regions| ==> regions[m].start < regions[m].end <= n)
    && (forall m, i :: 0 <= m < |regions| && Inside(regions[m], i) ==> Changed(ops, i))
    && (forall m, k :: 0 <= m < k < |regions| ==> regions[m].end < regions[k].start)
    && (forall i :: 0 <= i < n && Changed(ops, i) ==> InSome(regions, i))
  }

  method FindRegions(ops: seq<Op>) returns (regions: seq<Window>)
    ensures RunsOfChanges(ops, regions, |ops|)
  {
    regions := [];
    var i := 0;
    while i < |ops|
      invariant 0 <= i <= |ops| && RunsOfChanges(ops, regions, i)
      invariant |regions| > 0 && regions[|regions| - 1].end == i && i < |ops| ==> ops[i].kind == Equal
    {
      if ops[i].kind == Equal {
        i := i + 1;
      } else {
        var start := i;
        while i < |ops| && ops[i].kind != Equal
          invariant start <= i <= |ops|
          invariant forall k :: start <= k < i ==> Changed(ops, k)
          decreases |ops| - i
        {
          i := i + 1;
        }
        AppendRegion(ops, regions, Window(start, i));
        regions := regions + [Window(start, i)];
      }
    }
  }

  lemma AppendRegion(ops: seq<Op>, regions: seq<Window>, w: Window)
    requires w.start < w.end <= |ops| && RunsOfChanges(ops, regions, w.start)
    requires forall k :: w.start <= k < w.end ==> Changed(ops, k)
    requires |regions| > 0 ==> regions[|regions| - 1].end < w.start
    ensures RunsOfChanges(ops, regions + [w], w.end)
  {
    var more := regions + [w];
    assert more[|regions|] == w;
    forall i | 0 <= i < w.end && Changed(ops, i) ensures InSome(more, i) {
      if i < w.start {
        assert InSome(regions, i);
        var m :| 0 <= m < |regions| && Inside(regions[m], i);
        assert Inside(more[m], i);
      } else {
        assert Inside(more[|regions|], i);
      }
    }
    forall m | 0 <= m < |regions| ensures more[m].end < w.start {
      if m < |regions| - 1 { assert regions[m].end < regions[|regions| - 1].start; }
    }
  }

  function Expand(r: Window, context: nat, n: nat): Window {
    Window(if r.start < context then 0 else r.start - context, if r.end + context > n then n else r.end + context)
  }

  /** Widening every region by the context covers exactly the lines near a change. */
  lemma ExpandedAreNear(ops: seq<Op>, regions: seq<Window>, windows: seq<Window>, context: nat)
    requires RunsOfChanges(ops, regions, |ops|)
    requires |windows| == |regions|
    requires forall m :: 0 <= m < |regions| ==> windows[m] == Expand(regions[m], context, |ops|)
    ensures forall i :: InSome(windows, i) <==> Near(ops, context, i)
  {
    forall i | InSome(windows, i) ensures Near(ops, context, i) {
      var m :| 0 <= m < |windows| && Inside(windows[m], i);
      var r := regions[m];
      var j := if i < r.start then r.start else if i >= r.end then r.end - 1 else i;
      assert Inside(r, j);
      assert Changed(ops, j) && j - context <= i <= j + context;
    }
    forall i | Near(ops, context, i) ensures InSome(windows, i) {
      var j :| Changed(ops, j) && j - context <= i <= j + context;
      assert InSome(regions, j);
      var m :| 0 <= m < |regions| && Inside(regions[m], j);
      assert Inside(windows[m], i);
    }
  }

  ghost predicate Ordered(ops: seq<Op>, windows: seq<Window>) {
    && (forall m :: 0 <= m < |windows| ==> windows[m].start < windows[m].end <= |ops| && HasChange(ops, windows[m]))
    && (forall m, n :: 0 <= m < n < |windows| ==> windows[m].start <= windows[n].start)
  }

  lemma ExpandedAreOrdered(ops: seq<Op>, regions: seq<Window>, windows: seq<Window>, context: nat)
    requires RunsOfChanges(ops, regions, |ops|)
    requires |windows| == |regions|
    requires forall m :: 0 <= m < |regions| ==> windows[m] == Expand(regions[m], context, |ops|)
    ensures Ordered(ops, windows)
  {
    forall m | 0 <= m < |windows|
      ensures windows[m].start < windows[m].end <= |ops| && HasChange(ops, windows[m])
    {
      ExpandedHasChange(ops, regions[m], context);
    }
    forall m, n | 0 <= m < n < |windows| ensures windows[m].start <= windows[n].start {
      assert regions[m].end < regions[n].start;
    }
  }

  lemma ExpandedHasChange(ops: seq<Op>, r: Window, context: nat)
    requires r.start < r.end <= |ops| && forall i :: Inside(r, i) ==> Changed(ops, i)
    ensures var w := Expand(r, context, |ops|); w.start < w.end <= |ops| && HasChange(ops, w)
  {
    assert Inside(r, r.start);
    assert Inside(Expand(r, context, |ops|), r.start);
  }

  /** Merging overlapping or touching windows loses no line and gains none. */
  method MergeWindows(ops: seq<Op>, windows: seq<Window>) returns (merged: seq<Window>)
    requires Ordered(ops, windows)
    ensures Separated(ops, merged)
    ensures forall i :: InSome(merged, i) <==> InSome(windows, i)
  {
    merged := [];
    for k := 0 to |windows|
      invariant Separated(ops, merged)
      invariant forall i :: InSome(merged, i) <==> InSome(windows[..k], i)
      invariant k == 0 ==> merged == []
      invariant k > 0 ==> merged != [] && merged[|merged| - 1].start <= windows[k - 1].start
    {
      var w := windows[k];
      assert k > 0 ==> windows[k - 1].start <= w.start;
      ghost var before := merged;
      if merged != [] && w.start <= merged[|merged| - 1].end {
        var last := merged[|merged| - 1];
        var widened := if w.end > last.end then last.(end := w.end) else last;
        WidenLast(ops, merged, w, widened);
        merged := merged[..|merged| - 1] + [widened];
      } else {
        AppendWindow(ops, merged, w);
        merged := merged + [w];
      }
      SnocWindow(windows, k);
      forall i ensures InSome(merged, i) <==> InSome(windows[..k + 1], i) {
        assert InSome(before, i) <==> InSome(windows[..k], i);
      }
    }
    assert windows[..|windows|] == windows;
  }

  lemma SnocWindow(windows: seq<Window>, k: nat)
    requires k < |windows|
    ensures forall i :: InSome(windows[..k + 1], i) <==> InSome(windows[..k], i) || Inside(windows[k], i)
  {
    forall i ensures InSome(windows[..k + 1], i) <==> InSome(windows[..k], i) || Inside(windows[k], i) {
      InSomeSnoc(windows[..k], windows[k], i);
      assert windows[..k + 1] == windows[..k] + [windows[k]];
    }
  }

  lemma InSomeSnoc(ws: seq<Window>, w: Window, i: int)
    ensures InSome(ws + [w], i) <==> InSome(ws, i) || Inside(w, i)
  {
    if InSome(ws, i) {
      var m :| 0 <= m < |ws| && Inside(ws[m], i);
      assert Inside((ws + [w])[m], i);
    }
    if Inside(w, i) { assert Inside((ws + [w])[|ws|], i); }
    if InSome(ws + [w], i) {
      var m :| 0 <= m < |ws| + 1 && Inside((ws + [w])[m], i);
      assert m < |ws| ==> Inside(ws[m], i);
    }
  }

  lemma AppendWindow(ops: seq<Op>, merged: seq<Window>, w: Window)
    requires Separated(ops, merged) && w.start < w.end <= |ops| && HasChange(ops, w)
    requires merged != [] ==> merged[|merged| - 1].end < w.start
    ensures Separated(ops, merged + [w])
    ensures forall i :: InSome(merged + [w], i) <==> InSome(merged, i) || Inside(w, i)
  {
    forall i ensures InSome(merged + [w], i) <==> InSome(merged, i) || Inside(w, i) { InSomeSnoc(merged, w, i); }
    forall m | 0 <= m < |merged| ensures merged[m].end < w.start {
      if m < |merged| - 1 { assert merged[m].end < merged[|merged| - 1].start; }
    }
  }

  lemma WidenLast(ops: seq<Op>, merged: seq<Window>, w: Window, widened: Window)
    requires merged != [] && Separated(ops, merged) && w.start < w.end <= |ops|
    requires var last := merged[|merged| - 1];
             last.start <= w.start <= last.end
             && widened == if w.end > last.end then last.(end := w.end) else last
    ensures Separated(ops, merged[..|merged| - 1] + [widened])
    ensures forall i :: InSome(merged[..|merged| - 1] + [widened], i) <==> InSome(merged, i) || Inside(w, i)
  {
    var n := |merged| - 1;
    var last := merged[n];
    assert merged == merged[..n] + [last];
    forall i ensures InSome(merged[..n] + [widened], i) <==> InSome(merged, i) || Inside(w, i) {
      InSomeSnoc(merged[..n], widened, i);
      InSomeSnoc(merged[..n], last, i);
    }
    assert HasChange(ops, widened) by {
      var i :| Inside(last, i) && Changed(ops, i);
      assert Inside(widened, i);
    }
  }

  // ---------------------------------------------------------------- line numbers

  function OldBefore(ops: seq<Op>, k: nat): nat
    requires k <= |ops|
  {
    |Old(ops[..k])|
  }

  function NewBefore(ops: seq<Op>, k: nat): nat
    requires k <= |ops|
  {
    |New(ops[..k])|
  }

  /** The hunk a window stands for. */
  function HunkAt(ops: seq<Op>, w: Window): Hunk
    requires w.start <= w.end <= |ops|
  {
    Hunk(OldBefore(ops, w.start) + 1, NewBefore(ops, w.start) + 1, ops[w.start..w.end])
  }

  function HunksAt(ops: seq<Op>, ws: seq<Window>): (r: seq<Hunk>)
    requires forall m :: 0 <= m < |ws| ==> ws[m].start <= ws[m].end <= |ops|
  {
    seq(|ws|, m requires 0 <= m < |ws| => HunkAt(ops, ws[m]))
  }

  lemma BeforeNext(ops: seq<Op>, k: nat)
    requires k < |ops|
    ensures OldBefore(ops, k + 1) == OldBefore(ops, k) + |OldPart(ops[k])|
    ensures NewBefore(ops, k + 1) == NewBefore(ops, k) + |NewPart(ops[k])|
  {
    assert ops[..k + 1] == ops[..k] + [ops[k]];
    OldConcat(ops[..k], [ops[k]]);
    NewConcat(ops[..k], [ops[k]]);
  }

  method LineNumbers(ops: seq<Op>) returns (oldLine: array<int>, newLine: array<int>)
    ensures fresh(oldLine) && fresh(newLine) && oldLine.Length == newLine.Length == |ops| + 1
    ensures forall k :: 0 <= k <= |ops| ==> oldLine[k] == OldBefore(ops, k) + 1 && newLine[k] == NewBefore(ops, k) + 1
  {
    oldLine, newLine := new int[|ops| + 1], new int[|ops| + 1];
    oldLine[0], newLine[0] := 1, 1;
    for k := 0 to |ops|
      invariant forall j :: 0 <= j <= k ==> oldLine[j] == OldBefore(ops, j) + 1 && newLine[j] == NewBefore(ops, j) + 1
    {
      BeforeNext(ops, k);
      oldLine[k + 1], newLine[k + 1] := oldLine[k], newLine[k];
      match ops[k].kind {
        case Equal =>
          oldLine[k + 1] := oldLine[k + 1] + 1;
          newLine[k + 1] := newLine[k + 1] + 1;
        case Delete =>
          oldLine[k + 1] := oldLine[k + 1] + 1;
        case Insert =>
          newLine[k + 1] := newLine[k + 1] + 1;
      }
    }
  }

  method Assemble(ops: seq<Op>, merged: seq<Window>) returns (hunks: seq<Hunk>)
    requires forall m :: 0 <= m < |merged| ==> merged[m].start <= merged[m].end <= |ops|
    ensures hunks == HunksAt(ops, merged)
  {
    var oldLine, newLine := LineNumbers(ops);
    hunks := [];
    for k := 0 to |merged|
      invariant |hunks| == k && forall m :: 0 <= m < k ==> hunks[m] == HunkAt(ops, merged[m])
    {
      var w := merged[k];
      hunks := hunks + [Hunk(oldLine[w.start], newLine[w.start], ops[w.start..w.end])];
    }
  }

  /** The hunks are in order and apart, cover exactly the lines within `context` of a
      change, and patch the old file into the new one. */
  method BuildHunks(ops: seq<Op>, context: nat) returns (hunks: seq<Hunk>, ghost ws: seq<Window>)
    ensures Separated(ops, ws) && hunks == HunksAt(ops, ws)
    ensures forall i :: InSome(ws, i) <==> Near(ops, context, i)
    ensures Patch(Old(ops), hunks, 0, 0) == Some(New(ops))
  {
    var regions := FindRegions(ops);
    var windows := seq(|regions|, m requires 0 <= m < |regions| => Expand(regions[m], context, |ops|));
    ExpandedAreNear(ops, regions, windows, context);
    ExpandedAreOrdered(ops, regions, windows, context);
    var merged := MergeWindows(ops, windows);
    hunks := Assemble(ops, merged);
    ws := merged;
    ChangesAreNear(ops, context);
    HunksPatch(ops, ws);
  }

  /** The counts of a hunk's header. */
  method HeaderCounts(h: Hunk) returns (oldCount: nat, newCount: nat)
    ensures oldCount == |Old(h.ops)| && newCount == |New(h.ops)|
  {
    oldCount, newCount := 0, 0;
    for k := 0 to |h.ops|
      invariant oldCount == OldBefore(h.ops, k) && newCount == NewBefore(h.ops, k)
    {
      BeforeNext(h.ops, k);
      match h.ops[k].kind {
        case Equal => oldCount, newCount := oldCount + 1, newCount + 1;
        case Delete => oldCount := oldCount + 1;
        case Insert => newCount := newCount + 1;
      }
    }
    assert h.ops[..|h.ops|] == h.ops;
  }

  // ---------------------------------------------------------------- applying hunks

  /** The hunk's old lines are found at oldStart, not before the cursor, and newStart is
      where its new lines end up. */
  predicate Fits(a: seq<string>, h: Hunk, cursor: nat, line: nat) {
    var at, end := h.oldStart - 1, h.oldStart - 1 + |Old(h.ops)|;
    cursor <= at && end <= |a| && a[at..end] == Old(h.ops) && h.newStart - 1 == line + (at - cursor)
  }

  /** Applying hunks to file a, `cursor` lines of which are already copied and `line` new
      lines written; a hunk that does not fit makes it fail. */
  function Patch(a: seq<string>, hunks: seq<Hunk>, cursor: nat, line: nat): Option<seq<string>> {
    if hunks == [] then if cursor <= |a| then Some(a[cursor..]) else None
    else if !Fits(a, hunks[0], cursor, line) then None
    else
      var rest := Patch(a, hunks[1..], OldEnd(hunks[0]), NewEnd(hunks[0]));
      if rest.None? then None else Some(a[cursor..hunks[0].oldStart - 1] + (New(hunks[0].ops) + rest.value))
  }

  function OldEnd(h: Hunk): nat {
    if h.oldStart < 1 then 0 else h.oldStart - 1 + |Old(h.ops)|
  }

  function NewEnd(h: Hunk): nat {
    if h.newStart < 1 then 0 else h.newStart - 1 + |New(h.ops)|
  }

  lemma {:induction false} UnchangedIsSame(ops: seq<Op>)
    requires forall i :: !Changed(ops, i)
    ensures Old(ops) == New(ops)
  {
    if ops != [] {
      assert !Changed(ops, 0);
      forall i ensures !Changed(ops[1..], i) { assert !Changed(ops, i + 1); }
      UnchangedIsSame(ops[1..]);
    }
  }

  lemma CutOld(ops: seq<Op>, p: nat, s: nat)
    requires p <= s <= |ops|
    ensures OldBefore(ops, p) <= OldBefore(ops, s) == OldBefore(ops, p) + |Old(ops[p..s])| <= |Old(ops)|
    ensures Old(ops)[OldBefore(ops, p)..OldBefore(ops, s)] == Old(ops[p..s])
  {
    assert ops[..s] == ops[..p] + ops[p..s];
    OldConcat(ops[..p], ops[p..s]);
    assert ops == ops[..s] + ops[s..];
    OldConcat(ops[..s], ops[s..]);
  }

  lemma CutNew(ops: seq<Op>, p: nat, s: nat)
    requires p <= s <= |ops|
    ensures NewBefore(ops, s) == NewBefore(ops, p) + |New(ops[p..s])|
    ensures New(ops[p..]) == New(ops[p..s]) + New(ops[s..])
  {
    assert ops[..s] == ops[..p] + ops[p..s];
    NewConcat(ops[..p], ops[p..s]);
    assert ops[p..] == ops[p..s] + ops[s..];
    NewConcat(ops[p..s], ops[s..]);
  }

  /** Every change from line p of the script on lies in some window. */
  ghost predicate CoveredFrom(ops: seq<Op>, ws: seq<Window>, p: nat) {
    forall i {:trigger InSome(ws, i)} :: i >= p && Changed(ops, i) ==> InSome(ws, i)
  }

  lemma GapIsUnchanged(ops: seq<Op>, ws: seq<Window>, p: nat, s: nat)
    requires Separated(ops, ws) && CoveredFrom(ops, ws, p) && p <= s <= |ops|
    requires forall m :: 0 <= m < |ws| ==> s <= ws[m].start
    ensures Old(ops[p..s]) == New(ops[p..s])
  {
    var gap := ops[p..s];
    forall i | 0 <= i < |gap| ensures !Changed(gap, i) {
      assert !InSome(ws, i + p);
      assert gap[i] == ops[i + p];
    }
    UnchangedIsSame(gap);
  }

  lemma TailIsCovered(ops: seq<Op>, ws: seq<Window>, p: nat)
    requires ws != [] && Separated(ops, ws) && CoveredFrom(ops, ws, p) && p <= ws[0].start
    ensures Separated(ops, ws[1..]) && CoveredFrom(ops, ws[1..], ws[0].end)
  {
    forall i | i >= ws[0].end && Changed(ops, i) ensures InSome(ws[1..], i) {
      assert InSome(ws, i);
      var m :| 0 <= m < |ws| && Inside(ws[m], i);
      assert Inside(ws[1..][m - 1], i);
    }
  }

  /** One hunk: copy up to it, write its new lines, go on behind its old ones. */
  lemma PatchHead(a: seq<string>, h: Hunk, rest: seq<Hunk>, cursor: nat, line: nat, tail: seq<string>)
    requires Fits(a, h, cursor, line) && Patch(a, rest, OldEnd(h), NewEnd(h)) == Some(tail)
    ensures Patch(a, [h] + rest, cursor, line) == Some(a[cursor..h.oldStart - 1] + (New(h.ops) + tail))
  {
    assert ([h] + rest)[1..] == rest;
  }

  /** A window's hunk fits wherever the script before it has been dealt with. */
  lemma WindowFits(ops: seq<Op>, w: Window, p: nat)
    requires p <= w.start <= w.end <= |ops| && Old(ops[p..w.start]) == New(ops[p..w.start])
    ensures Fits(Old(ops), HunkAt(ops, w), OldBefore(ops, p), NewBefore(ops, p))
    ensures Old(ops)[OldBefore(ops, p)..HunkAt(ops, w).oldStart - 1] == New(ops[p..w.start])
  {
    CutOld(ops, p, w.start);
    WindowEnds(ops, w);
    NewBeforeCut(ops, p, w.start);
    CutOld(ops, w.start, w.end);
  }

  lemma NewBeforeCut(ops: seq<Op>, p: nat, s: nat)
    requires p <= s <= |ops|
    ensures NewBefore(ops, s) == NewBefore(ops, p) + |New(ops[p..s])|
  {
    CutNew(ops, p, s);
  }

  lemma WindowEnds(ops: seq<Op>, w: Window)
    requires w.start <= w.end <= |ops|
    ensures OldEnd(HunkAt(ops, w)) == OldBefore(ops, w.end) && NewEnd(HunkAt(ops, w)) == NewBefore(ops, w.end)
  {
    CutOld(ops, w.start, w.end);
    NewBeforeCut(ops, w.start, w.end);
  }

  ghost predicate InRange(ops: seq<Op>, ws: seq<Window>) {
    forall m :: 0 <= m < |ws| ==> ws[m].start <= ws[m].end <= |ops|
  }

  /** The windows patch everything from line p of the script on. */
  ghost predicate PatchesFrom(ops: seq<Op>, ws: seq<Window>, p: nat)
    requires InRange(ops, ws) && p <= |ops|
  {
    Patch(Old(ops), HunksAt(ops, ws), OldBefore(ops, p), NewBefore(ops, p)) == Some(New(ops[p..]))
  }

  lemma HunksCons(ops: seq<Op>, w: Window, rest: seq<Window>)
    requires InRange(ops, rest) && w.start <= w.end <= |ops|
    ensures InRange(ops, [w] + rest)
    ensures HunksAt(ops, [w] + rest) == [HunkAt(ops, w)] + HunksAt(ops, rest)
  {
  }

  lemma CutNewTwice(ops: seq<Op>, p: nat, w: Window)
    requires p <= w.start <= w.end <= |ops|
    ensures New(ops[p..]) == New(ops[p..w.start]) + (New(ops[w.start..w.end]) + New(ops[w.end..]))
  {
    CutNew(ops, p, w.start);
    CutNew(ops, w.start, w.end);
  }

  /** A window's hunk in front of hunks that patch everything behind the window. */
  lemma PatchWindow(ops: seq<Op>, w: Window, behind: seq<Hunk>, p: nat)
    requires p <= w.start <= w.end <= |ops| && Old(ops[p..w.start]) == New(ops[p..w.start])
    requires Patch(Old(ops), behind, OldBefore(ops, w.end), NewBefore(ops, w.end)) == Some(New(ops[w.end..]))
    ensures Patch(Old(ops), [HunkAt(ops, w)] + behind, OldBefore(ops, p), NewBefore(ops, p)) == Some(New(ops[p..]))
  {
    var a, h, c, n := Old(ops), HunkAt(ops, w), OldBefore(ops, p), NewBefore(ops, p);
    WindowFits(ops, w, p);
    PatchOne(a, h, behind, c, n, New(ops[p..w.start]), New(ops[w.end..])) by { WindowEnds(ops, w); }
    CutNewTwice(ops, p, w);
  }

  lemma PatchOne(a: seq<string>, h: Hunk, rest: seq<Hunk>, cursor: nat, line: nat, head: seq<string>, tail: seq<string>)
    requires Fits(a, h, cursor, line) && a[cursor..h.oldStart - 1] == head
    requires Patch(a, rest, OldEnd(h), NewEnd(h)) == Some(tail)
    ensures Patch(a, [h] + rest, cursor, line) == Some(head + (New(h.ops) + tail))
  {
    PatchHead(a, h, rest, cursor, line, tail);
  }

  lemma PatchCons(ops: seq<Op>, w: Window, rest: seq<Window>, p: nat)
    requires InRange(ops, rest) && p <= w.start <= w.end <= |ops|
    requires Old(ops[p..w.start]) == New(ops[p..w.start]) && PatchesFrom(ops, rest, w.end)
    ensures InRange(ops, [w] + rest) && PatchesFrom(ops, [w] + rest, p)
  {
    HunksCons(ops, w, rest);
    PatchWindow(ops, w, HunksAt(ops, rest), p);
  }

  lemma PatchNil(ops: seq<Op>, p: nat)
    requires p <= |ops| && Old(ops[p..|ops|]) == New(ops[p..|ops|])
    ensures PatchesFrom(ops, [], p)
  {
    CutOld(ops, p, |ops|);
    assert HunksAt(ops, []) == [];
    assert ops[p..|ops|] == ops[p..] && ops[..|ops|] == ops;
    assert Old(ops)[OldBefore(ops, p)..] == Old(ops)[OldBefore(ops, p)..OldBefore(ops, |ops|)];
  }

  /** From line p of the script on, the windows from p on patch the rest of the file. */
  lemma {:induction false} PatchFrom(ops: seq<Op>, ws: seq<Window>, p: nat)
    requires Separated(ops, ws) && p <= |ops| && (ws != [] ==> p <= ws[0].start)
    requires CoveredFrom(ops, ws, p)
    ensures InRange(ops, ws) && PatchesFrom(ops, ws, p)
    decreases |ws|
  {
    if ws == [] {
      GapIsUnchanged(ops, ws, p, |ops|);
      PatchNil(ops, p);
    } else {
      GapBefore(ops, ws, p);
      TailIsCovered(ops, ws, p);
      PatchFrom(ops, ws[1..], ws[0].end);
      PatchCons(ops, ws[0], ws[1..], p);
      assert ws == [ws[0]] + ws[1..];
    }
  }

  lemma GapBefore(ops: seq<Op>, ws: seq<Window>, p: nat)
    requires ws != [] && Separated(ops, ws) && CoveredFrom(ops, ws, p) && p <= ws[0].start
    ensures Old(ops[p..ws[0].start]) == New(ops[p..ws[0].start])
    ensures |ws| > 1 ==> ws[0].end < ws[1].start
  {
    assert forall m :: 0 < m < |ws| ==> ws[0].start <= ws[0].end < ws[m].start;
    GapIsUnchanged(ops, ws, p, ws[0].start);
  }

  lemma ChangesAreNear(ops: seq<Op>, context: nat)
    ensures forall i :: Changed(ops, i) ==> Near(ops, context, i)
  {
    forall i | Changed(ops, i) ensures Near(ops, context, i) {
      assert i - context <= i <= i + context;
    }
  }

  /** Whatever the windows: apart, around changes and leaving none out, they patch. */
  lemma HunksPatch(ops: seq<Op>, ws: seq<Window>)
    requires Separated(ops, ws) && forall i :: Changed(ops, i) ==> InSome(ws, i)
    ensures InRange(ops, ws) && Patch(Old(ops), HunksAt(ops, ws), 0, 0) == Some(New(ops))
  {
    PatchFrom(ops, ws, 0);
    assert PatchesFrom(ops, ws, 0);
    assert ops[..0] == [] && ops[0..] == ops;
  }

  /** There are no hunks exactly when there is nothing to change. */
  lemma EmptyMeansUnchanged(ops: seq<Op>, ws: seq<Window>, context: nat)
    requires Separated(ops, ws) && forall i :: InSome(ws, i) <==> Near(ops, context, i)
    ensures ws == [] <==> forall i :: !Changed(ops, i)
  {
    ChangesAreNear(ops, context);
    if ws != [] {
      assert HasChange(ops, ws[0]);
    }
  }
}
