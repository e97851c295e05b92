/** From file contents to hunks and back: splitting into lines, diffing, and the exact
    condition under which nothing about the contents is lost on the way. */
module UnifiedDiff {
  import opened Options
  import opened LineDiff
  import opened Hunks

  /** Lines of context around each change. */
  const CONTEXT: nat := 3

  /** The position of the first newline, or the length if there is none. */
  function LineLength(s: string): (k: nat)
    ensures k <= |s|
  {
    if s == "" || s[0] == '\n' then 0 else 1 + LineLength(s[1..])
  }

  lemma {:induction false} LineEnds(s: string)
    ensures LineLength(s) < |s| ==> s[LineLength(s)] == '\n'
    ensures forall i :: 0 <= i < LineLength(s) ==> s[i] != '\n'
  {
    if s != "" { LineEnds(s[1..]); }
  }

  /** strings.Split on "\n": one more field than there are newlines. */
  function Fields(s: string): (r: seq<string>)
    ensures r != []
  {
    if LineLength(s) == |s| then [s] else [s[..LineLength(s)]] + Fields(s[LineLength(s) + 1..])
  }

  /** The lines of a file: a line that ends with the file rather than a newline is tagged. */
  function SplitLines(s: string): seq<string> {
    if s == "" then []
    else if LineLength(s) == |s| then [s + [SENTINEL]]
    else [s[..LineLength(s)]] + SplitLines(s[LineLength(s) + 1..])
  }

  /** Drop the empty field behind a final newline, or tag the last line. */
  function TagLast(f: seq<string>): seq<string>
    requires f != []
  {
    var last := |f| - 1;
    if f[last] == "" then f[..last] else f[..last] + [f[last] + [SENTINEL]]
  }

  lemma TagLastCons(line: string, f: seq<string>)
    requires f != []
    ensures TagLast([line] + f) == [line] + TagLast(f)
  {
    var all := [line] + f;
    assert all[|all| - 1] == f[|f| - 1] && all[..|all| - 1] == [line] + f[..|f| - 1];
  }

  lemma PeelLine(s: string, k: nat)
    requires k == LineLength(s) < |s|
    ensures SplitLines(s) == [s[..k]] + SplitLines(s[k + 1..])
  {
  }

  lemma PeelField(s: string, k: nat)
    requires k == LineLength(s) < |s|
    ensures Fields(s) == [s[..k]] + Fields(s[k + 1..])
  {
  }

  lemma {:induction false} FieldsAreLines(s: string)
    ensures SplitLines(s) == TagLast(Fields(s))
    decreases |s|
  {
    var k := LineLength(s);
    if k < |s| {
      FieldsAreLines(s[k + 1..]);
      PeelLine(s, k);
      PeelField(s, k);
      TagLastCons(s[..k], Fields(s[k + 1..]));
    }
  }

  /** Every line is a single line. */
  lemma {:induction false} LinesHoldNoNewline(s: string)
    ensures forall k :: 0 <= k < |SplitLines(s)| ==> '\n' !in SplitLines(s)[k]
    decreases |s|
  {
    var k := LineLength(s);
    LineEnds(s);
    if k < |s| {
      LinesHoldNoNewline(s[k + 1..]);
      PeelLine(s, k);
      assert '\n' !in s[..k];
    } else if s != "" {
      assert SplitLines(s) == [s + [SENTINEL]];
      assert '\n' !in s;
    }
  }

  method SplitLinesKeepingNone(data: string) returns (lines: seq<string>)
    ensures lines == SplitLines(data) && forall k :: 0 <= k < |lines| ==> '\n' !in lines[k]
  {
    LinesHoldNoNewline(data);
    if data == "" { return []; }
    lines := Fields(data);
    FieldsAreLines(data);
    var last := |lines| - 1;
    if lines[last] == "" {
      lines := lines[..last];
    } else {
      lines := lines[..last] + [lines[last] + [SENTINEL]];
    }
  }

  /** The file a list of lines stands for: a tagged last line ends it without a newline. */
  function JoinLines(lines: seq<string>): string {
    if lines == [] then ""
    else if |lines| == 1 && Tagged(lines[0]) then lines[0][..|lines[0]| - 1]
    else lines[0] + "\n" + JoinLines(lines[1..])
  }

  /** The file's last line is terminated, and ends in the very byte used as the tag. */
  predicate EndsInTagAndNewline(s: string) {
    |s| >= 2 && s[|s| - 2] == SENTINEL && s[|s| - 1] == '\n'
  }

  lemma JoinOne(line: string)
    ensures JoinLines([line]) == if Tagged(line) then line[..|line| - 1] else line + "\n"
  {
    assert [line][1..] == [];
    assert line + "\n" + "" == line + "\n";
  }

  lemma UnterminatedLine(s: string)
    requires s != "" && LineLength(s) == |s|
    ensures Survives(s) && !EndsInTagAndNewline(s)
  {
    var line := s + [SENTINEL];
    assert SplitLines(s) == [line];
    JoinOne(line);
    LineEnds(s);
    assert line[..|s|] == s;
  }

  /** Splitting and joining gives the contents back. */
  ghost predicate Survives(s: string) {
    JoinLines(SplitLines(s)) == s
  }

  /** A file that is one terminated line. */
  lemma TerminatedLine(s: string)
    requires LineLength(s) + 1 == |s|
    ensures Survives(s) <==> !EndsInTagAndNewline(s)
  {
    var line := s[..|s| - 1];
    LineEnds(s);
    OneLine(s, line);
    JoinTerminated(line, s);
  }

  lemma OneLine(s: string, line: string)
    requires LineLength(s) + 1 == |s| && line == s[..|s| - 1]
    ensures SplitLines(s) == [line]
  {
    assert s[|s|..] == "";
  }

  lemma JoinTerminated(line: string, s: string)
    requires |s| > 0 && line == s[..|s| - 1] && s[|s| - 1] == '\n'
    ensures JoinLines([line]) == s <==> !EndsInTagAndNewline(s)
  {
    JoinOne(line);
    assert s == line + "\n";
    assert Tagged(line) <==> EndsInTagAndNewline(s);
  }

  /** Splitting loses nothing exactly when the contents do not end in NUL newline; in
      particular never for NUL-free contents. */
  lemma {:induction false} SplitRoundTrip(s: string)
    ensures Survives(s) <==> !EndsInTagAndNewline(s)
    decreases |s|
  {
    if s == "" {
    } else if LineLength(s) == |s| {
      UnterminatedLine(s);
    } else if LineLength(s) + 1 == |s| {
      TerminatedLine(s);
    } else {
      FirstOfMany(s);
      SplitRoundTrip(s[LineLength(s) + 1..]);
    }
  }

  lemma SuffixEnds(head: string, rest: string)
    requires rest != "" && |head| > 0 && head[|head| - 1] == '\n'
    ensures EndsInTagAndNewline(head + rest) <==> EndsInTagAndNewline(rest)
  {
    var s := head + rest;
    assert s[|s| - 1] == rest[|rest| - 1];
    assert |rest| == 1 ==> s[|s| - 2] == '\n';
    assert |rest| > 1 ==> s[|s| - 2] == rest[|rest| - 2];
  }

  /** Peeling a line off the front changes neither side of the question. */
  lemma FirstOfMany(s: string)
    requires LineLength(s) + 1 < |s|
    ensures var rest := s[LineLength(s) + 1..];
            && (Survives(s) <==> Survives(rest))
            && (EndsInTagAndNewline(s) <==> EndsInTagAndNewline(rest))
  {
    var k := LineLength(s);
    var head, rest := s[..k] + "\n", s[k + 1..];
    LineEnds(s);
    assert s == head + rest;
    SuffixEnds(head, rest);
    LinesExist(rest);
    assert SplitLines(s) == [s[..k]] + SplitLines(rest);
    JoinFirst(s[..k], SplitLines(rest));
    SameSuffix(head, JoinLines(SplitLines(rest)), rest);
  }

  lemma JoinFirst(line: string, lines: seq<string>)
    requires lines != []
    ensures JoinLines([line] + lines) == line + "\n" + JoinLines(lines)
  {
    assert ([line] + lines)[1..] == lines;
  }

  lemma LinesExist(s: string)
    requires s != ""
    ensures SplitLines(s) != []
  {
  }

  lemma SameSuffix(x: string, y: string, z: string)
    ensures x + y == x + z <==> y == z
  {
    if x + y == x + z {
      assert y == (x + y)[|x|..] && z == (x + z)[|x|..];
    }
  }

  /** Files without the tag byte always survive splitting. */
  lemma NulFreeRoundTrip(s: string)
    requires SENTINEL !in s
    ensures JoinLines(SplitLines(s)) == s
  {
    SplitRoundTrip(s);
  }

  /** The condition is needed: these two different files have the same lines. */
  lemma TagCollision()
    ensures SplitLines("a\0\n") == SplitLines("a") && "a\0\n" != "a"
  {
    var s := "a\0\n";
    assert LineLength(s) == 2;
    assert s[..2] == "a" + [SENTINEL] && s[3..] == "";
  }

  lemma {:induction false} AllEqualScript(a: seq<string>) returns (ops: seq<Op>)
    ensures Old(ops) == a && New(ops) == a && |ops| == |a|
  {
    if a == [] {
      ops := [];
    } else {
      var rest := AllEqualScript(a[1..]);
      var op := MakeOp(Equal, a[0]);
      ops := [op] + rest;
      Prepend(op, rest);
      assert a == [a[0]] + a[1..];
    }
  }

  lemma {:induction false} EqualsAtMostLength(ops: seq<Op>)
    ensures Equals(ops) <= |ops|
    ensures Equals(ops) == |ops| ==> forall i :: !Changed(ops, i)
  {
    if ops != [] {
      EqualsAtMostLength(ops[1..]);
      if Equals(ops) == |ops| {
        forall i ensures !Changed(ops, i) {
          if 0 < i < |ops| { assert !Changed(ops[1..], i - 1); }
        }
      }
    }
  }

  /** A minimal script between equal files changes nothing, and a script that changes
      nothing is between equal files. */
  lemma UnchangedIffSameLines(ops: seq<Op>)
    requires forall other :: Old(other) == Old(ops) && New(other) == New(ops) ==> |ops| <= |other|
    ensures (forall i :: !Changed(ops, i)) <==> Old(ops) == New(ops)
  {
    if Old(ops) == New(ops) {
      var other := AllEqualScript(Old(ops));
      ScriptLength(ops);
      EqualsAtMostLength(ops);
    }
    if forall i :: !Changed(ops, i) { UnchangedIsSame(ops); }
  }

  /** The whole diff of two files: the hunks show exactly the lines of the edit script within
      three lines of a change, the hunks patch the old lines into the new ones, joining
      the result gives the new file byte for byte, and there are no hunks exactly when the
      files are the same, a missing final newline being a difference like any other. */
  method Diff(before: string, after: string) returns (hunks: seq<Hunk>, ghost ops: seq<Op>, ghost ws: seq<Window>)
    ensures Old(ops) == SplitLines(before) && New(ops) == SplitLines(after)
    ensures Separated(ops, ws) && hunks == HunksAt(ops, ws)
    ensures forall i :: InSome(ws, i) <==> Near(ops, 3, i)
    ensures Patch(SplitLines(before), hunks, 0, 0) == Some(SplitLines(after))
    ensures !EndsInTagAndNewline(after) ==>
              JoinLines(Patch(SplitLines(before), hunks, 0, 0).value) == after
    ensures hunks == [] <==> SplitLines(before) == SplitLines(after)
    ensures !EndsInTagAndNewline(before) && !EndsInTagAndNewline(after) ==> (hunks == [] <==> before == after)
  {
    var a := SplitLinesKeepingNone(before);
    var b := SplitLinesKeepingNone(after);
    var script := DiffLines(a, b);
    hunks, ws := BuildHunks(script, CONTEXT);
    ops := script;
    EmptyMeansUnchanged(ops, ws, CONTEXT);
    UnchangedIffSameLines(ops);
    SplitRoundTrip(before);
    SplitRoundTrip(after);
  }
}
