/** The line diff: a longest-common-subsequence table, walked back into an edit script. */
module LineDiff {

  datatype Kind = Equal | Delete | Insert

  /** One line of an edit script; `noNL` marks a final line without a newline. */
  datatype Op = Op(kind: Kind, line: string, noNL: bool)

  /** Tags a split line that ended its file without a newline. */
  const SENTINEL: char := '\0'

  predicate Tagged(s: string) {
    |s| > 0 && s[|s| - 1] == SENTINEL
  }

  function MakeOp(kind: Kind, s: string): (op: Op)
    ensures op.kind == kind && Text(op) == s && (op.noNL <==> Tagged(s))
  {
    if Tagged(s) then Op(kind, s[..|s| - 1], true) else Op(kind, s, false)
  }

  /** The split line an op stands for. */
  function Text(op: Op): string {
    if op.noNL then op.line + [SENTINEL] else op.line
  }

  function OldPart(op: Op): seq<string> {
    if op.kind == Insert then [] else [Text(op)]
  }

  function NewPart(op: Op): seq<string> {
    if op.kind == Delete then [] else [Text(op)]
  }

  /** The old file: everything but the insertions. */
  function Old(ops: seq<Op>): seq<string> {
    if ops == [] then [] else OldPart(ops[0]) + Old(ops[1..])
  }

  /** The new file: everything but the deletions. */
  function New(ops: seq<Op>): seq<string> {
    if ops == [] then [] else NewPart(ops[0]) + New(ops[1..])
  }

  function Equals(ops: seq<Op>): nat {
    if ops == [] then 0 else (if ops[0].kind == Equal then 1 else 0) + Equals(ops[1..])
  }

  /** Positions f in a and g in b that spell out one common subsequence. */
  ghost predicate Matches(a: seq<string>, b: seq<string>, f: seq<nat>, g: seq<nat>) {
    && |f| == |g|
    && (forall k :: 0 <= k < |f| ==> f[k] < |a| && g[k] < |b| && a[f[k]] == b[g[k]])
    && (forall k, m :: 0 <= k < m < |f| ==> f[k] < f[m] && g[k] < g[m])
  }

  /** The recurrence the table is filled by. */
  function Lcs(a: seq<string>, b: seq<string>): nat
    decreases |a| + |b|
  {
    if a == [] || b == [] then 0
    else
      var a', b' := a[..|a| - 1], b[..|b| - 1];
      if a[|a| - 1] == b[|b| - 1] then Lcs(a', b') + 1
      else if Lcs(a', b) >= Lcs(a, b') then Lcs(a', b)
      else Lcs(a, b')
  }

  /** No common subsequence is longer than the recurrence's value. */
  lemma {:induction false} LcsIsLongest(a: seq<string>, b: seq<string>, f: seq<nat>, g: seq<nat>)
    requires Matches(a, b, f, g)
    ensures |f| <= Lcs(a, b)
    decreases |a| + |b|
  {
    if f != [] {
      assert f[0] < |a| && g[0] < |b|;
      var n := |f| - 1;
      var a', b' := a[..|a| - 1], b[..|b| - 1];
      if a[|a| - 1] == b[|b| - 1] {
        assert Matches(a', b', f[..n], g[..n]) by {
          assert forall k :: 0 <= k < n ==> f[k] < f[n] && g[k] < g[n];
        }
        LcsIsLongest(a', b', f[..n], g[..n]);
      } else if f[n] < |a| - 1 {
        assert Matches(a', b, f, g) by { assert forall k :: 0 <= k < n ==> f[k] < f[n]; }
        LcsIsLongest(a', b, f, g);
      } else {
        assert Matches(a, b', f, g) by { assert forall k :: 0 <= k < n ==> g[k] < g[n]; }
        LcsIsLongest(a, b', f, g);
      }
    }
  }

  lemma Assoc(x: seq<string>, y: seq<string>, z: seq<string>)
    ensures (x + y) + z == x + (y + z)
  {
  }

  lemma {:induction false} OldConcat(x: seq<Op>, y: seq<Op>)
    ensures Old(x + y) == Old(x) + Old(y)
  {
    if x == [] {
      assert x + y == y;
    } else {
      OldConcat(x[1..], y);
      assert (x + y)[1..] == x[1..] + y;
      Assoc(OldPart(x[0]), Old(x[1..]), Old(y));
    }
  }

  lemma {:induction false} NewConcat(x: seq<Op>, y: seq<Op>)
    ensures New(x + y) == New(x) + New(y)
  {
    if x == [] {
      assert x + y == y;
    } else {
      NewConcat(x[1..], y);
      assert (x + y)[1..] == x[1..] + y;
      Assoc(NewPart(x[0]), New(x[1..]), New(y));
    }
  }

  function Reversed(ops: seq<Op>): seq<Op> {
    if ops == [] then [] else [ops[|ops| - 1]] + Reversed(ops[..|ops| - 1])
  }

  lemma {:induction false} SameLength(ops: seq<Op>)
    ensures |Reversed(ops)| == |ops|
  {
    if ops != [] { SameLength(ops[..|ops| - 1]); }
  }

  lemma {:induction false} FromTheEnd(ops: seq<Op>, k: nat)
    requires k < |ops| == |Reversed(ops)|
    ensures Reversed(ops)[k] == ops[|ops| - 1 - k]
    decreases k
  {
    var init := ops[..|ops| - 1];
    if k > 0 {
      SameLength(init);
      FromTheEnd(init, k - 1);
      assert Reversed(ops)[k] == Reversed(init)[k - 1];
    }
  }

  /** Cell (i, j) holds the value for the first i lines of a and the first j of b. */
  ghost predicate Tabulates(dp: array2<int>, a: seq<string>, b: seq<string>)
    reads dp
  {
    && dp.Length0 == |a| + 1 && dp.Length1 == |b| + 1
    && forall i, j :: 0 <= i <= |a| && 0 <= j <= |b| ==> dp[i, j] == Lcs(a[..i], b[..j])
  }

  method FillTable(a: seq<string>, b: seq<string>) returns (dp: array2<int>)
    ensures fresh(dp) && Tabulates(dp, a, b)
  {
    dp := new int[|a| + 1, |b| + 1]((i, j) => 0);
    for i := 1 to |a| + 1
      invariant forall x, y :: 0 <= x < i && 0 <= y <= |b| ==> dp[x, y] == Lcs(a[..x], b[..y])
      invariant forall x :: i <= x <= |a| ==> dp[x, 0] == 0
    {
      for j := 1 to |b| + 1
        invariant forall x, y :: 0 <= x < i && 0 <= y <= |b| ==> dp[x, y] == Lcs(a[..x], b[..y])
        invariant forall y :: 0 <= y < j ==> dp[i, y] == Lcs(a[..i], b[..y])
        invariant forall x :: i <= x <= |a| ==> dp[x, 0] == 0
      {
        Cell(a, b, i, j);
        if a[i - 1] == b[j - 1] {
          dp[i, j] := dp[i - 1, j - 1] + 1;
        } else if dp[i - 1, j] >= dp[i, j - 1] {
          dp[i, j] := dp[i - 1, j];
        } else {
          dp[i, j] := dp[i, j - 1];
        }
      }
    }
  }

  /** The recurrence at one cell of the table. */
  lemma Cell(a: seq<string>, b: seq<string>, i: nat, j: nat)
    requires 0 < i <= |a| && 0 < j <= |b|
    ensures var up, left := Lcs(a[..i - 1], b[..j]), Lcs(a[..i], b[..j - 1]);
            Lcs(a[..i], b[..j]) == if a[i - 1] == b[j - 1] then Lcs(a[..i - 1], b[..j - 1]) + 1
                                   else if up >= left then up else left
  {
    assert a[..i][..i - 1] == a[..i - 1] && b[..j][..j - 1] == b[..j - 1];
  }

  /** One line more or less changes the value by at most one. */
  lemma {:induction false} LcsGrows(a: seq<string>, b: seq<string>)
    ensures a != [] ==> Lcs(a[..|a| - 1], b) <= Lcs(a, b) <= Lcs(a[..|a| - 1], b) + 1
    ensures b != [] ==> Lcs(a, b[..|b| - 1]) <= Lcs(a, b) <= Lcs(a, b[..|b| - 1]) + 1
    decreases |a| + |b|
  {
    if a != [] && b != [] {
      LcsGrows(a[..|a| - 1], b);
      LcsGrows(a, b[..|b| - 1]);
    }
  }

  /** Walking back, after a deletion there is nothing left to insert before the next line
      that is kept or deleted. */
  ghost predicate DeletingAt(a: seq<string>, b: seq<string>, i: nat, j: nat)
    requires i <= |a| && j <= |b|
  {
    j > 0 ==> Lcs(a[..i], b[..j]) > Lcs(a[..i], b[..j - 1])
  }

  /** In every run of changes the deletions come first. */
  ghost predicate DeletesFirst(ops: seq<Op>) {
    forall k, m :: 0 <= k && m == k + 1 && m < |ops| ==> !(ops[k].kind == Insert && ops[m].kind == Delete)
  }

  lemma PrefixOfPrefix(a: seq<string>, i: nat)
    requires 0 < i <= |a|
    ensures a[..i][..i - 1] == a[..i - 1]
  {
  }

  /** A deletion is only taken where an insertion would lose an equal line. */
  lemma DeleteMeans(a: seq<string>, b: seq<string>, i: nat, j: nat)
    requires 0 < i <= |a| && j <= |b|
    requires j > 0 ==> a[i - 1] != b[j - 1] && Lcs(a[..i], b[..j - 1]) < Lcs(a[..i - 1], b[..j])
    ensures DeletingAt(a, b, i - 1, j)
  {
    if j > 0 {
      LcsGrows(a[..i], b[..j - 1]);
      PrefixOfPrefix(a, i);
    }
  }

  /** So no insertion is taken right after a deletion. */
  lemma NoInsertBefore(a: seq<string>, b: seq<string>, i: nat, j: nat)
    requires i <= |a| && 0 < j <= |b| && DeletingAt(a, b, i, j)
    requires i > 0 ==> a[i - 1] != b[j - 1]
    ensures i > 0 && Lcs(a[..i], b[..j - 1]) < Lcs(a[..i - 1], b[..j])
  {
    if i > 0 { Cell(a, b, i, j); }
  }

  /** The script covers everything from a[i] and b[j] on, and what is left before them
      is worth exactly the equal lines still missing. */
  ghost predicate Covers(a: seq<string>, b: seq<string>, i: nat, j: nat, script: seq<Op>) {
    && i <= |a| && j <= |b|
    && Old(script) == a[i..]
    && New(script) == b[j..]
    && Lcs(a[..i], b[..j]) + Equals(script) == Lcs(a, b)
  }

  /** Putting one more line in front of a script. */
  lemma PrependLine(kind: Kind, line: string, script: seq<Op>)
    ensures var ops := [MakeOp(kind, line)] + script;
            && Old(ops) == (if kind == Insert then [] else [line]) + Old(script)
            && New(ops) == (if kind == Delete then [] else [line]) + New(script)
            && Equals(ops) == (if kind == Equal then 1 else 0) + Equals(script)
  {
    Prepend(MakeOp(kind, line), script);
  }

  lemma FromOneEarlier(a: seq<string>, i: nat)
    requires 0 < i <= |a|
    ensures a[i - 1..] == [a[i - 1]] + a[i..]
  {
  }

  lemma KeepStep(a: seq<string>, b: seq<string>, i: nat, j: nat, script: seq<Op>)
    requires i > 0 && j > 0 && Covers(a, b, i, j, script) && a[i - 1] == b[j - 1]
    ensures Covers(a, b, i - 1, j - 1, [MakeOp(Equal, a[i - 1])] + script)
  {
    Cell(a, b, i, j);
    PrependLine(Equal, a[i - 1], script);
    FromOneEarlier(a, i);
    FromOneEarlier(b, j);
  }

  lemma InsertStep(a: seq<string>, b: seq<string>, i: nat, j: nat, script: seq<Op>)
    requires j > 0 && Covers(a, b, i, j, script)
    requires i > 0 ==> a[i - 1] != b[j - 1] && Lcs(a[..i], b[..j - 1]) >= Lcs(a[..i - 1], b[..j])
    ensures Covers(a, b, i, j - 1, [MakeOp(Insert, b[j - 1])] + script)
  {
    if i > 0 { Cell(a, b, i, j); }
    PrependLine(Insert, b[j - 1], script);
    FromOneEarlier(b, j);
  }

  lemma DeleteStep(a: seq<string>, b: seq<string>, i: nat, j: nat, script: seq<Op>)
    requires i > 0 && Covers(a, b, i, j, script)
    requires j > 0 ==> a[i - 1] != b[j - 1] && Lcs(a[..i], b[..j - 1]) < Lcs(a[..i - 1], b[..j])
    ensures Covers(a, b, i - 1, j, [MakeOp(Delete, a[i - 1])] + script)
  {
    if j > 0 { Cell(a, b, i, j); }
    PrependLine(Delete, a[i - 1], script);
    FromOneEarlier(a, i);
  }

  function Shift(f: seq<nat>, offset: nat): (r: seq<nat>)
    ensures |r| == |f| && forall k :: 0 <= k < |f| ==> r[k] == f[k] + offset
  {
    seq(|f|, k requires 0 <= k < |f| => f[k] + offset)
  }

  lemma ShiftMatches(x: seq<string>, y: seq<string>, a: seq<string>, b: seq<string>, f: seq<nat>, g: seq<nat>)
    requires Matches(a, b, f, g)
    ensures Matches(x + a, y + b, Shift(f, |x|), Shift(g, |y|))
  {
    forall k | 0 <= k < |f| ensures (x + a)[Shift(f, |x|)[k]] == (y + b)[Shift(g, |y|)[k]] {
      assert a[f[k]] == b[g[k]];
    }
  }

  lemma ConsMatches(t: string, a: seq<string>, b: seq<string>, f: seq<nat>, g: seq<nat>)
    requires Matches([t] + a, [t] + b, Shift(f, 1), Shift(g, 1))
    ensures Matches([t] + a, [t] + b, [0] + Shift(f, 1), [0] + Shift(g, 1))
  {
  }

  lemma {:induction false} ScriptLength(ops: seq<Op>)
    ensures |ops| + Equals(ops) == |Old(ops)| + |New(ops)|
  {
    if ops != [] { ScriptLength(ops[1..]); }
  }

  /** A script's equal lines are a common subsequence of its two files. */
  lemma {:induction false} ScriptMatches(ops: seq<Op>) returns (f: seq<nat>, g: seq<nat>)
    ensures |f| == Equals(ops) && Matches(Old(ops), New(ops), f, g)
  {
    if ops == [] {
      f, g := [], [];
    } else {
      f, g := ScriptMatches(ops[1..]);
      var op, a, b := ops[0], Old(ops[1..]), New(ops[1..]);
      ShiftMatches(OldPart(op), NewPart(op), a, b, f, g);
      if op.kind == Equal {
        ConsMatches(Text(op), a, b, f, g);
        f, g := [0] + Shift(f, 1), [0] + Shift(g, 1);
      } else {
        f, g := Shift(f, |OldPart(op)|), Shift(g, |NewPart(op)|);
      }
    }
  }

  /** No script between the same two files is shorter. */
  lemma LongestIsMinimal(ops: seq<Op>, other: seq<Op>)
    requires Equals(ops) == Lcs(Old(ops), New(ops))
    requires Old(other) == Old(ops) && New(other) == New(ops)
    ensures |ops| <= |other|
  {
    var f, g := ScriptMatches(other);
    LcsIsLongest(Old(ops), New(ops), f, g);
    ScriptLength(ops);
    ScriptLength(other);
  }

  lemma FullCover(a: seq<string>, b: seq<string>, ops: seq<Op>)
    requires Covers(a, b, 0, 0, ops)
    ensures Old(ops) == a && New(ops) == b && Equals(ops) == Lcs(a, b)
    ensures forall f, g :: Matches(a, b, f, g) ==> |f| <= Equals(ops)
    ensures forall other :: Old(other) == a && New(other) == b ==> |ops| <= |other|
  {
    assert a[0..] == a && b[0..] == b;
    forall f, g | Matches(a, b, f, g) ensures |f| <= Equals(ops) { LcsIsLongest(a, b, f, g); }
    forall other | Old(other) == a && New(other) == b ensures |ops| <= |other| { LongestIsMinimal(ops, other); }
  }

  /** The edit script: dropping insertions gives back a, dropping deletions gives b, and
      no common subsequence is longer than the equal lines, so no script is shorter; within
      a run of changes the deletions come first. */
  method DiffLines(a: seq<string>, b: seq<string>) returns (ops: seq<Op>)
    ensures Old(ops) == a && New(ops) == b
    ensures Equals(ops) == Lcs(a, b)
    ensures forall f, g :: Matches(a, b, f, g) ==> |f| <= Equals(ops)
    ensures forall other :: Old(other) == a && New(other) == b ==> |ops| <= |other|
    ensures DeletesFirst(ops)
  {
    var dp := FillTable(a, b);
    var rev := WalkBack(a, b, dp);
    ops := ReverseOps(rev);
    FullCover(a, b, ops);
  }

  /** The walk back through the table, collecting the script from its end. */
  method WalkBack(a: seq<string>, b: seq<string>, dp: array2<int>) returns (rev: seq<Op>)
    requires Tabulates(dp, a, b)
    ensures Walked(a, b, 0, 0, Reversed(rev))
  {
    rev := [];
    var i: nat, j: nat := |a|, |b|;
    assert a[..i] == a && b[..j] == b;
    while i > 0 || j > 0
      invariant Walked(a, b, i, j, Reversed(rev))
      decreases i + j
    {
      var kind := Choose(a, b, dp, i, j);
      WalkStep(a, b, i, j, kind, Reversed(rev));
      var op := OpAt(a, b, i, j, kind);
      SnocReversed(rev, op);
      i, j, rev := if kind == Insert then i else i - 1, if kind == Delete then j else j - 1, rev + [op];
    }
  }

  /** What the walk back has made of the table so far. */
  ghost predicate Walked(a: seq<string>, b: seq<string>, i: nat, j: nat, script: seq<Op>) {
    && Covers(a, b, i, j, script) && DeletesFirst(script)
    && (script != [] && script[0].kind == Delete ==> DeletingAt(a, b, i, j))
  }

  lemma OneMoreInOrder(op: Op, script: seq<Op>)
    requires DeletesFirst(script)
    requires !(op.kind == Insert && script != [] && script[0].kind == Delete)
    ensures DeletesFirst([op] + script)
  {
    var ops := [op] + script;
    forall k, m | 0 <= k && m == k + 1 && m < |ops| ensures !(ops[k].kind == Insert && ops[m].kind == Delete) {
      if k > 0 { assert ops[k] == script[k - 1] && ops[m] == script[m - 1]; }
    }
  }

  lemma KeepWalk(a: seq<string>, b: seq<string>, i: nat, j: nat, script: seq<Op>)
    requires i > 0 && j > 0 && Walked(a, b, i, j, script) && a[i - 1] == b[j - 1]
    ensures Walked(a, b, i - 1, j - 1, [MakeOp(Equal, a[i - 1])] + script)
  {
    KeepStep(a, b, i, j, script);
    OneMoreInOrder(MakeOp(Equal, a[i - 1]), script);
  }

  lemma InsertWalk(a: seq<string>, b: seq<string>, i: nat, j: nat, script: seq<Op>)
    requires j > 0 && Walked(a, b, i, j, script)
    requires i > 0 ==> a[i - 1] != b[j - 1] && Lcs(a[..i], b[..j - 1]) >= Lcs(a[..i - 1], b[..j])
    ensures Walked(a, b, i, j - 1, [MakeOp(Insert, b[j - 1])] + script)
  {
    InsertStep(a, b, i, j, script);
    if script != [] && script[0].kind == Delete { NoInsertBefore(a, b, i, j); }
    OneMoreInOrder(MakeOp(Insert, b[j - 1]), script);
  }

  lemma DeleteWalk(a: seq<string>, b: seq<string>, i: nat, j: nat, script: seq<Op>)
    requires i > 0 && Walked(a, b, i, j, script)
    requires j > 0 ==> a[i - 1] != b[j - 1] && Lcs(a[..i], b[..j - 1]) < Lcs(a[..i - 1], b[..j])
    ensures Walked(a, b, i - 1, j, [MakeOp(Delete, a[i - 1])] + script)
  {
    DeleteStep(a, b, i, j, script);
    DeleteMeans(a, b, i, j);
    OneMoreInOrder(MakeOp(Delete, a[i - 1]), script);
  }

  /** What may be taken next, walking back: an equal line, an insertion that loses none, or
      a deletion where an insertion would. */
  predicate Takes(a: seq<string>, b: seq<string>, i: nat, j: nat, kind: Kind) {
    && i <= |a| && j <= |b|
    && match kind
       case Equal => i > 0 && j > 0 && a[i - 1] == b[j - 1]
       case Insert => j > 0 && (i > 0 ==> a[i - 1] != b[j - 1] && Lcs(a[..i], b[..j - 1]) >= Lcs(a[..i - 1], b[..j]))
       case Delete => i > 0 && (j > 0 ==> a[i - 1] != b[j - 1] && Lcs(a[..i], b[..j - 1]) < Lcs(a[..i - 1], b[..j]))
  }

  function OpAt(a: seq<string>, b: seq<string>, i: nat, j: nat, kind: Kind): Op
    requires Takes(a, b, i, j, kind)
  {
    MakeOp(kind, if kind == Insert then b[j - 1] else a[i - 1])
  }

  lemma WalkStep(a: seq<string>, b: seq<string>, i: nat, j: nat, kind: Kind, script: seq<Op>)
    requires Walked(a, b, i, j, script) && Takes(a, b, i, j, kind)
    ensures Walked(a, b, if kind == Insert then i else i - 1, if kind == Delete then j else j - 1,
                   [OpAt(a, b, i, j, kind)] + script)
  {
    match kind
    case Equal => KeepWalk(a, b, i, j, script);
    case Insert => InsertWalk(a, b, i, j, script);
    case Delete => DeleteWalk(a, b, i, j, script);
  }

  /** One step of the walk: keep an equal line, else insert unless that loses one, else delete. */
  method Choose(a: seq<string>, b: seq<string>, dp: array2<int>, i: nat, j: nat) returns (kind: Kind)
    requires Tabulates(dp, a, b) && i <= |a| && j <= |b| && (i > 0 || j > 0)
    ensures Takes(a, b, i, j, kind)
  {
    if i > 0 && j > 0 && a[i - 1] == b[j - 1] { return Equal; }
    var insert := InsertLosesNothing(a, b, dp, i, j);
    return if insert then Insert else Delete;
  }

  method InsertLosesNothing(a: seq<string>, b: seq<string>, dp: array2<int>, i: nat, j: nat) returns (r: bool)
    requires Tabulates(dp, a, b) && i <= |a| && j <= |b|
    ensures r <==> j > 0 && (i == 0 || Lcs(a[..i], b[..j - 1]) >= Lcs(a[..i - 1], b[..j]))
  {
    return j > 0 && (i == 0 || dp[i, j - 1] >= dp[i - 1, j]);
  }

  lemma SnocReversed(rev: seq<Op>, op: Op)
    ensures Reversed(rev + [op]) == [op] + Reversed(rev)
  {
    assert (rev + [op])[..|rev|] == rev;
  }

  lemma Prepend(op: Op, ops: seq<Op>)
    ensures Old([op] + ops) == OldPart(op) + Old(ops)
    ensures New([op] + ops) == NewPart(op) + New(ops)
    ensures Equals([op] + ops) == (if op.kind == Equal then 1 else 0) + Equals(ops)
  {
    assert ([op] + ops)[1..] == ops;
  }

  /** Writing a list out from its far end. */
  method ReverseOps(rev: seq<Op>) returns (ops: seq<Op>)
    ensures ops == Reversed(rev)
  {
    var out := new Op[|rev|](_ => Op(Equal, "", false));
    for k := 0 to |rev|
      invariant forall m :: 0 <= m < k ==> out[|rev| - 1 - m] == rev[m]
    {
      out[|rev| - 1 - k] := rev[k];
    }
    ops := out[..];
    SameLength(rev);
    forall m | 0 <= m < |rev| ensures ops[m] == Reversed(rev)[m] {
      FromTheEnd(rev, m);
      assert out[|rev| - 1 - (|rev| - 1 - m)] == rev[|rev| - 1 - m];
    }
  }
}
