/** What a deploy graph run means: the verdict Run returns is exact under every
    completion order and every cancellation, and Run always gets to return one. */
module GraphVerdict {
  import opened Options
  import opened Picks
  import opened Graphs
  import opened DeploySpec
  import opened GraphScheduler

  // ---------------------------------------------------------------- rows

  lemma {:induction false} AllSomes(rows: seq<Option<CheckResult>>)
    requires forall i :: 0 <= i < |rows| ==> rows[i].Some?
    ensures |Somes(rows)| == |rows|
    ensures forall i :: 0 <= i < |rows| ==> rows[i] == Some(Somes(rows)[i])
  {
    if rows != [] { AllSomes(rows[..|rows| - 1]); }
  }

  /** When no node is left without a row, the i-th row is the i-th node's. */
  lemma RowsAreComplete(g: Graph, results: map<string, CheckResult>, culprit: string)
    requires culprit != "" || forall i: nat :: i < |g.nodes| ==> g.nodes[i].name in results
    ensures |Rows(g, results, culprit)| == |g.nodes|
    ensures forall i: nat :: i < |g.nodes| ==> Row(g, results, culprit, i) == Some(Rows(g, results, culprit)[i])
  {
    var rows := RowsByNode(g, results, culprit);
    AllSomes(rows);
    forall i: nat | i < |g.nodes| ensures Row(g, results, culprit, i) == Some(Somes(rows)[i]) {
      assert rows[i] == Row(g, results, culprit, i);
    }
  }

  /** Rows in spec order, each of them a numbered entry, no entry missing. */
  ghost predicate InSpecOrder(entries: seq<Option<CheckResult>>, rows: seq<CheckResult>) {
    && (forall a :: 0 <= a < |rows| ==> 1 <= rows[a].seqNo <= |entries| && entries[rows[a].seqNo - 1] == Some(rows[a]))
    && (forall a, b :: 0 <= a < b < |rows| ==> rows[a].seqNo < rows[b].seqNo)
    && (forall i :: 0 <= i < |entries| && entries[i].Some? ==> entries[i].value in rows)
  }

  lemma InSpecOrderSnoc(entries: seq<Option<CheckResult>>, rows: seq<CheckResult>, last: Option<CheckResult>)
    requires InSpecOrder(entries, rows) && (last.Some? ==> last.value.seqNo == |entries| + 1)
    ensures InSpecOrder(entries + [last], rows + if last.Some? then [last.value] else [])
  {
    var more := rows + if last.Some? then [last.value] else [];
    assert last.Some? ==> more[|rows|] == last.value;
    forall i | 0 <= i < |entries| && entries[i].Some? ensures entries[i].value in more {
      assert entries[i].value in rows;
    }
  }

  lemma {:induction false} SomesInSpecOrder(entries: seq<Option<CheckResult>>)
    requires forall i :: 0 <= i < |entries| && entries[i].Some? ==> entries[i].value.seqNo == i + 1
    ensures InSpecOrder(entries, Somes(entries))
  {
    if entries != [] {
      var prev, last := entries[..|entries| - 1], entries[|entries| - 1];
      SomesInSpecOrder(prev);
      InSpecOrderSnoc(prev, Somes(prev), last);
      assert entries == prev + [last];
    }
  }

  /** Without a culprit, the rows are exactly the recorded results. */
  ghost predicate ExactlyTheRecorded(g: Graph, results: map<string, CheckResult>, rows: seq<CheckResult>) {
    InSpecOrder(seq(|g.nodes|, i requires 0 <= i < |g.nodes| =>
                      if g.nodes[i].name in results then Some(results[g.nodes[i].name].(seqNo := i + 1)) else None),
                rows)
  }

  lemma RowsWithoutCulprit(g: Graph, results: map<string, CheckResult>)
    ensures ExactlyTheRecorded(g, results, Rows(g, results, ""))
  {
    var entries := seq(|g.nodes|, i requires 0 <= i < |g.nodes| =>
                         if g.nodes[i].name in results then Some(results[g.nodes[i].name].(seqNo := i + 1)) else None);
    assert RowsByNode(g, results, "") == entries;
    SomesInSpecOrder(entries);
  }

  lemma {:induction false} DistinctNamesCount(ds: seq<Node>)
    requires DistinctNames(ds)
    ensures |NamesOf(ds)| == |ds|
  {
    if ds != [] {
      var k := |ds| - 1;
      DistinctNamesCount(ds[..k]);
      NamesOfSnoc(ds, k);
      assert ds[..k + 1] == ds;
      assert ds[k].name !in NamesOf(ds[..k]);
    }
  }

  lemma SubsetOfSameSize<T>(a: set<T>, b: set<T>)
    requires a <= b && |a| == |b|
    ensures a == b
  {
    assert b == a + (b - a);
  }

  lemma SubsetWithNothingLeft<T>(a: set<T>, b: set<T>)
    requires a <= b && b - a == {}
    ensures a == b && |a| == |b|
  {
    assert b == a + (b - a);
  }

  // ---------------------------------------------------------------- exact verdict

  /** Once Run has returned, no node is waiting, executing or unreported; only the
      release of already sent nodes' slots may still be outstanding. */
  ghost predicate NothingLeftRunning(s: State) {
    && (forall i: nat :: i < |s.phase| ==> s.phase[i] == Unstarted || s.phase[i] == Received)
    && (forall i :: i in s.holders ==> i < |s.phase| && s.phase[i] == Received)
  }

  /** A verdict that satisfies dependents: a pass or a skip, and no Err. */
  predicate SaysGreen(r: CheckResult) {
    !r.err && (r.status == Passed || r.status == Skipped)
  }

  predicate TurnedGreen(results: map<string, CheckResult>, dep: string) {
    dep in results && SaysGreen(results[dep])
  }

  /** The row is node i's, under its own name and number, and says what its command said. */
  ghost predicate SaysItsReport(g: Graph, s: State, row: CheckResult, i: nat)
    requires i < |g.nodes|
  {
    && i in s.returned && row.name == g.nodes[i].name && row.seqNo == i + 1
    && row.status == s.returned[i].status && row.err == s.returned[i].err
    && row.blockedBy == s.returned[i].blockedBy && row.output == s.returned[i].output
  }

  /** One green row per declared node, in spec order, each what its command reported. */
  ghost predicate AllGreen(g: Graph, s: State, rows: seq<CheckResult>) {
    && |rows| == |g.nodes|
    && forall i: nat :: i < |rows| ==> SaysGreen(rows[i]) && SaysItsReport(g, s, rows[i], i)
  }

  /** The row of a node with a recorded result. (In a graph with an unnamed node a slot wait
      given up may stand for a report.) */
  ghost predicate OwnRow(g: Graph, s: State, row: CheckResult, i: nat)
    requires i < |g.nodes|
  {
    || SaysItsReport(g, s, row, i)
    || (!AllNamed(g) && row.name == g.nodes[i].name && row.seqNo == i + 1 && row.err)
  }

  /** The row of a node without one: blocked by all the prerequisites that did not turn
      green, in their order, or by the culprit if there are none. */
  ghost predicate BlockedRow(g: Graph, s: State, row: CheckResult, culprit: string, i: nat)
    requires i < |g.nodes|
  {
    && row.name == g.nodes[i].name && row.seqNo == i + 1 && row.status == Blocked && !row.err
    && var after := g.nodes[i].after;
       if exists d :: d in after && !TurnedGreen(s.results, d)
       then PicksInOrder(after, row.blockedBy, set d | d in after && !TurnedGreen(s.results, d))
       else row.blockedBy == [culprit]
  }

  /** A finished node's row is its own, green before the culprit; an unfinished node is
      blocked by exactly what did not turn green. */
  ghost predicate RedRow(g: Graph, s: State, row: CheckResult, culprit: string, c: nat, i: nat)
    requires i < |g.nodes|
  {
    if g.nodes[i].name in s.results then OwnRow(g, s, row, i) && (i < c ==> SaysGreen(row))
    else BlockedRow(g, s, row, culprit, i)
  }

  /** The culprit is the first finished node in spec order that is not green. */
  ghost predicate RedVerdict(g: Graph, s: State, rows: seq<CheckResult>, culprit: string, c: nat) {
    && |rows| == |g.nodes| && c < |rows|
    && rows[c].name == culprit && culprit in s.results && !SaysGreen(rows[c])
    && forall i: nat :: i < |rows| ==> RedRow(g, s, rows[i], culprit, c, i)
  }

  lemma NothingRunsAfterReturn(g: Graph, s: State)
    requires Inv(g, s) && s.pc.Returned?
    ensures NothingLeftRunning(s)
  {
    assert InFlight(s.phase) == {};
    forall i: nat | i < |s.phase| ensures !Flying(s.phase[i]) {
      assert i !in InFlight(s.phase);
    }
    forall i | i in s.holders ensures i < |s.phase| && s.phase[i] == Received {
      assert HoldsRightly(s.phase[i], i in s.holders, i in s.returned);
    }
  }

  /** A returned run stays what it is when its outstanding slots are taken away. */
  lemma ReturnOutlivesSlots(g: Graph, s: State)
    requires Inv(g, s) && s.pc.Returned?
    ensures Inv(g, s.(holders := {}))
  {
    NothingRunsAfterReturn(g, s);
    var t := s.(holders := {});
    ChannelFrame(g, s, t);
    if DistinctNames(g.nodes) {
      StoredFrame(g, s, t);
      ReadyFrame(g, s, t);
    }
  }

  /** A node without a name has a node waiting for it. */
  ghost predicate UnnamedAreAwaited(g: Graph) {
    forall i :: 0 <= i < |g.nodes| && g.nodes[i].name == "" ==> exists j :: 0 <= j < |g.nodes| && "" in g.nodes[j].after
  }

  /** Results are kept by name, so a graph that repeats a name never fills them up. */
  lemma {:induction false} RepeatedNames(ds: seq<Node>)
    ensures |NamesOf(ds)| <= |ds|
    ensures !DistinctNames(ds) ==> |NamesOf(ds)| < |ds|
  {
    if ds != [] {
      var k := |ds| - 1;
      RepeatedNames(ds[..k]);
      NamesOfSnoc(ds, k);
      assert ds[..k + 1] == ds;
      if !DistinctNames(ds) && DistinctNames(ds[..k]) {
        var i, j :| 0 <= i < j < |ds| && ds[i].name == ds[j].name;
        assert j == k;
        assert ds[..k][i].name == ds[k].name;
      }
    }
  }

  lemma GreenReturnFillsUp(g: Graph, s: State)
    requires KeysOk(g, s) && |s.results| == |g.nodes|
    ensures DistinctNames(g.nodes) && forall i: nat :: i < |g.nodes| ==> g.nodes[i].name in s.results
  {
    RepeatedNames(g.nodes);
    SubsetSize(s.results.Keys, NamesOf(g.nodes));
    SubsetOfSameSize(s.results.Keys, NamesOf(g.nodes));
    forall i: nat | i < |g.nodes| ensures g.nodes[i].name in s.results {
      assert g.nodes[i].name in NamesOf(g.nodes);
    }
  }

  /** Where everything is recorded, an awaited node is green: whoever waited for it ran. */
  lemma AwaitedIsGreen(g: Graph, s: State, n: string, j: nat)
    requires Stored(g, s) && StartedAreReady(g, s) && j < |g.nodes|
    requires g.nodes[j].name in s.results && n in g.nodes[j].after
    ensures DepGreen(s.results, n)
  {
    assert Ready(g, s, j);
  }

  lemma EverythingIsGreen(g: Graph, s: State)
    requires Stored(g, s) && StartedAreReady(g, s) && NoHiddenRed(g, s) && UnnamedAreAwaited(g)
    requires Keep(s) && s.pc.Returned?
    requires forall i: nat :: i < |g.nodes| ==> g.nodes[i].name in s.results
    ensures FirstRed(g, s.results, 0) == |g.nodes|
  {
    var c := FirstRed(g, s.results, 0);
    if c < |g.nodes| {
      var j :| 0 <= j < |g.nodes| && "" in g.nodes[j].after;
      AwaitedIsGreen(g, s, "", j);
    }
  }

  /** ("", nil) means all green: on every graph, whatever its edges and names, in which
      only awaited nodes go without a name. */
  lemma GreenReturn(g: Graph, s: State)
    requires UnnamedAreAwaited(g) && Inv(g, s) && s.pc.Returned?
    requires s.pc.culprit == "" && s.pc.err == NoError
    ensures AllGreen(g, s, s.pc.rows)
  {
    GreenReturnFillsUp(g, s);
    EverythingIsGreen(g, s);
    RowsAreComplete(g, s.results, "");
    forall i: nat | i < |g.nodes| ensures SaysGreen(s.pc.rows[i]) && Reported(g, s, i, s.results[g.nodes[i].name]) {
      assert !IsRed(g, s.results, i);
      assert Row(g, s.results, "", i) == Some(s.pc.rows[i]);
    }
  }

  lemma UnsatisfiedSnoc(after: seq<string>, d: string, results: map<string, CheckResult>)
    ensures Unsatisfied(after + [d], results)
            == if TurnedGreen(results, d) then Unsatisfied(after, results) else Unsatisfied(after, results) + [d]
  {
    assert (after + [d])[..|after|] == after;
    assert Unsatisfied(after, results) + [] == Unsatisfied(after, results);
  }

  lemma UnsatisfiedPicksSnoc(after: seq<string>, d: string, results: map<string, CheckResult>, kept: set<string>)
    requires d in kept <==> !TurnedGreen(results, d)
    requires PicksInOrder(after, Unsatisfied(after, results), kept)
    ensures PicksInOrder(after + [d], Unsatisfied(after + [d], results), kept)
  {
    UnsatisfiedSnoc(after, d, results);
    PicksSnoc(after, Unsatisfied(after, results), kept, d);
  }

  lemma {:induction false} UnsatisfiedPicks(after: seq<string>, results: map<string, CheckResult>, kept: set<string>)
    requires forall k :: 0 <= k < |after| ==> (after[k] in kept <==> !TurnedGreen(results, after[k]))
    ensures PicksInOrder(after, Unsatisfied(after, results), kept)
  {
    if after == [] {
      PicksNothing(kept);
    } else {
      var k := |after| - 1;
      UnsatisfiedPicks(after[..k], results, kept);
      UnsatisfiedPicksSnoc(after[..k], after[k], results, kept);
      assert after[..k] + [after[k]] == after;
    }
  }

  lemma {:induction false} UnsatisfiedMembers(after: seq<string>, results: map<string, CheckResult>)
    ensures Unsatisfied(after, results) == [] <==> forall k :: 0 <= k < |after| ==> TurnedGreen(results, after[k])
  {
    if after != [] {
      var k := |after| - 1;
      UnsatisfiedMembers(after[..k], results);
      UnsatisfiedSnoc(after[..k], after[k], results);
      assert after[..k] + [after[k]] == after;
    }
  }

  lemma BlockedRowHolds(g: Graph, s: State, culprit: string, i: nat)
    requires i < |g.nodes| && g.nodes[i].name !in s.results && culprit != ""
    ensures BlockedRow(g, s, Row(g, s.results, culprit, i).value, culprit, i)
  {
    var after := g.nodes[i].after;
    UnsatisfiedPicks(after, s.results, set d | d in after && !TurnedGreen(s.results, d));
    UnsatisfiedMembers(after, s.results);
  }

  lemma RedRowHolds(g: Graph, s: State, culprit: string, i: nat)
    requires Stored(g, s) && i < |g.nodes| && culprit != ""
    ensures RedRow(g, s, Row(g, s.results, culprit, i).value, culprit, FirstRed(g, s.results, 0), i)
  {
    var c := FirstRed(g, s.results, 0);
    if g.nodes[i].name !in s.results {
      BlockedRowHolds(g, s, culprit, i);
    } else if i < c {
      assert !IsRed(g, s.results, i);
    }
  }

  lemma RedReturn(g: Graph, s: State)
    requires DistinctNames(g.nodes) && Inv(g, s) && s.pc.Returned? && s.pc.culprit != ""
    ensures RedVerdict(g, s, s.pc.rows, s.pc.culprit, FirstRed(g, s.results, 0)) && s.pc.err == NoError
  {
    var c, rows := FirstRed(g, s.results, 0), s.pc.rows;
    RowsAreComplete(g, s.results, s.culprit);
    assert Row(g, s.results, s.culprit, c) == Some(rows[c]);
    forall i: nat | i < |rows| ensures RedRow(g, s, rows[i], s.culprit, c, i) {
      assert Row(g, s.results, s.culprit, i) == Some(rows[i]);
      RedRowHolds(g, s, s.culprit, i);
    }
  }

  ghost predicate Exact(g: Graph, s: State)
    requires s.pc.Returned?
  {
    && NothingLeftRunning(s)
    && (s.pc.err == Cancelled <==> s.cancelled)
    && (s.pc.err != NoError ==> s.pc.culprit == "" && ExactlyTheRecorded(g, s.results, s.pc.rows))
    && (s.pc.err == NoError && s.pc.culprit == "" ==> AllGreen(g, s, s.pc.rows))
    && (s.pc.culprit != "" ==> exists c :: RedVerdict(g, s, s.pc.rows, s.pc.culprit, c))
  }

  /** The verdict of every finished run is exact. */
  lemma ExactVerdict(g: Graph, states: seq<State>, steps: seq<Step>)
    requires DistinctNames(g.nodes) && UnnamedAreAwaited(g) && IsRun(g, states, steps)
    requires states[|steps|].pc.Returned?
    ensures Exact(g, states[|steps|])
  {
    KeepsInvAt(g, states, steps, |steps|);
    ReturnIsExact(g, states[|steps|]);
  }

  lemma ReturnIsExact(g: Graph, s: State)
    requires DistinctNames(g.nodes) && UnnamedAreAwaited(g) && Inv(g, s) && s.pc.Returned?
    ensures Exact(g, s)
  {
    NothingRunsAfterReturn(g, s);
    RowsWithoutCulprit(g, s.results);
    if s.pc.culprit != "" {
      RedReturn(g, s);
    } else if s.pc.err == NoError {
      GreenReturn(g, s);
    }
  }

  /** In every state of every run: a command executes only while every node it comes
      after has a stored green result, at most max(MaxParallel, 1) nodes are in flight, and whatever is
      stored for a node is what that node's command reported (never a failed slot wait,
      as long as all nodes have names). */
  lemma CommandsFollowGreenDependencies(g: Graph, states: seq<State>, steps: seq<Step>, k: nat, i: nat)
    requires DistinctNames(g.nodes) && IsRun(g, states, steps) && k < |states| && i < |g.nodes|
    ensures var s := states[k];
            && |s.phase| == |g.nodes|
            && (s.phase[i] == Executing ==> forall d :: d in g.nodes[i].after ==> TurnedGreen(s.results, d))
            && |InFlight(s.phase)| <= (if g.maxParallel < 1 then 1 else g.maxParallel)
            && (g.nodes[i].name in s.results ==> Recordable(g, s, i, s.results[g.nodes[i].name]))
            && (g.nodes[i].name in s.results && AllNamed(g) ==> Reported(g, s, i, s.results[g.nodes[i].name]))
  {
    KeepsInvAt(g, states, steps, k);
    assert StartedAreReady(g, states[k]);
    if states[k].phase[i] == Executing {
      assert Ready(g, states[k], i);
      forall d | d in g.nodes[i].after ensures TurnedGreen(states[k].results, d) { assert DepGreen(states[k].results, d); }
    }
  }

  /** Nobody waits for nothing: when Run blocks for a result and has not concluded, the cap
      is used up or every node not started yet waits for one that has not turned green. And
      a node is only ever started before all startable nodes behind it. */
  lemma StartsAllItMay(g: Graph, states: seq<State>, steps: seq<Step>, k: nat, i: nat)
    requires IsRun(g, states, steps) && k < |states| && i < |g.nodes|
    ensures var s := states[k];
            && |s.phase| == |g.nodes|
            && (s.pc.Receiving? && s.culprit == "" && !s.cancelled ==>
                  || |InFlight(s.phase)| >= (if g.maxParallel < 1 then 1 else g.maxParallel)
                  || s.phase[i] != Unstarted || exists d :: d in g.nodes[i].after && !TurnedGreen(s.results, d))
            && (k < |steps| && |states[k + 1].phase| == |g.nodes| && s.phase[i] == Unstarted && states[k + 1].phase[i] != Unstarted ==>
                  forall j: nat :: j < i ==>
                    s.phase[j] != Unstarted || exists d :: d in g.nodes[j].after && !TurnedGreen(s.results, d))
  {
    var s := states[k];
    KeepsInvAt(g, states, steps, k);
    if !Ready(g, s, i) { var d := Missing(g, s, i); }
    if k < |steps| && |states[k + 1].phase| == |g.nodes| && s.phase[i] == Unstarted && states[k + 1].phase[i] != Unstarted {
      WhoStarts(g, s, steps[k], i);
      forall j: nat | j < i
        ensures s.phase[j] != Unstarted || exists d :: d in g.nodes[j].after && !TurnedGreen(s.results, d)
      {
        if s.phase[j] == Unstarted { var d := Missing(g, s, j); }
      }
    }
  }

  lemma Missing(g: Graph, s: State, i: nat) returns (d: string)
    requires i < |g.nodes| && !Ready(g, s, i)
    ensures d in g.nodes[i].after && !TurnedGreen(s.results, d)
  {
    d :| d in g.nodes[i].after && !DepGreen(s.results, d);
  }

  lemma WhoStarts(g: Graph, s: State, step: Step, i: nat)
    requires Channel(g, s) && Enabled(g, s, step) && i < |g.nodes| && Sized(g, Apply(g, s, step))
    requires s.phase[i] == Unstarted && Apply(g, s, step).phase[i] != Unstarted
    ensures step.Scan? && s.pc == Starting(i)
  {
    HeadIsInChannel(g, s);
  }

  lemma HeadIsInChannel(g: Graph, s: State)
    requires Channel(g, s)
    ensures s.done != [] ==> InPhase(s, s.done[0].idx, InChannel)
  {
  }

  // ---------------------------------------------------------------- progress

  function PhaseWeight(p: Phase): nat {
    match p
    case Unstarted => 5
    case WaitingForSlot => 4
    case Executing => 3
    case CommandDone => 2
    case InChannel => 1
    case Received => 0
  }

  function Weight(phase: seq<Phase>): nat {
    if phase == [] then 0 else Weight(phase[..|phase| - 1]) + PhaseWeight(phase[|phase| - 1])
  }

  lemma {:induction false} WeightUpdate(phase: seq<Phase>, i: nat, p: Phase)
    requires i < |phase|
    ensures Weight(phase[i := p]) == Weight(phase) - PhaseWeight(phase[i]) + PhaseWeight(p)
  {
    var k := |phase| - 1;
    if i < k {
      WeightUpdate(phase[..k], i, p);
      assert phase[i := p][..k] == phase[..k][i := p];
    } else {
      assert phase[i := p][..k] == phase[..k];
    }
  }

  function PcRank(g: Graph, pc: Pc): (r: nat)
    ensures r < |g.nodes| + 7
  {
    match pc
    case Draining => |g.nodes| + 6
    case Culling => |g.nodes| + 5
    case LoopHead => |g.nodes| + 4
    case Starting(i) => if i < |g.nodes| then |g.nodes| - i + 2 else 2
    case Receiving => 1
    case Returned(_, _, _) => 0
  }

  /** Work left in the node goroutines and their slots. */
  function Work(s: State): nat {
    2 * Weight(s.phase) + |s.holders|
  }

  /** Work left in the current turn of Run's loop. */
  function Turn(g: Graph, s: State): (r: nat)
    ensures r < |g.nodes| + 8
  {
    PcRank(g, s.pc) + if s.cancelled then 0 else 1
  }

  function Measure(g: Graph, s: State): nat {
    Work(s) * (|g.nodes| + 8) + Turn(g, s)
  }

  /** Fewer slots out, or a context that died, is less to do. */
  lemma LighterMeasure(g: Graph, s: State, t: State)
    requires t.phase == s.phase && t.pc == s.pc && (s.cancelled ==> t.cancelled) && t.holders <= s.holders
    ensures Measure(g, t) <= Measure(g, s)
  {
    SubsetSize(t.holders, s.holders);
    if Work(t) < Work(s) || (Work(t) == Work(s) && Turn(g, t) < Turn(g, s)) {
      LexicographicDrop(Work(s), Turn(g, s), Work(t), Turn(g, t), |g.nodes| + 8);
    }
  }

  /** A node that moves on uses up more work than a slot taken can add. */
  lemma MoveWork(s: State, t: State, i: nat, p: Phase)
    requires i < |s.phase| && t.phase == s.phase[i := p] && PhaseWeight(p) < PhaseWeight(s.phase[i])
    requires |t.holders| <= |s.holders| + 1
    ensures Work(t) < Work(s)
  {
    WeightUpdate(s.phase, i, p);
  }

  lemma ReceiveWork(g: Graph, s: State)
    requires Channel(g, s) && Enabled(g, s, Receive)
    ensures Work(Apply(g, s, Receive)) < Work(s)
  {
    assert InPhase(s, s.done[0].idx, InChannel);
    MoveWork(s, Apply(g, s, Receive), s.done[0].idx, Received);
  }

  lemma GetSlotWork(g: Graph, s: State, i: nat)
    requires Enabled(g, s, GetSlot(i))
    ensures Work(Apply(g, s, GetSlot(i))) < Work(s)
  {
    MoveWork(s, Apply(g, s, GetSlot(i)), i, Executing);
  }

  lemma ReleaseWork(g: Graph, s: State, i: nat)
    requires Enabled(g, s, ReleaseSlot(i))
    ensures Work(Apply(g, s, ReleaseSlot(i))) < Work(s)
  {
  }

  /** Node steps use up goroutine work. */
  lemma NodeStepWork(g: Graph, s: State, step: Step)
    requires Channel(g, s) && Enabled(g, s, step) && !PlainStep(step) && !step.Scan?
    ensures Work(Apply(g, s, step)) < Work(s)
  {
    var t := Apply(g, s, step);
    match step
    case Receive => ReceiveWork(g, s);
    case GetSlot(i) => GetSlotWork(g, s, i);
    case SlotWaitFails(i) => MoveWork(s, t, i, InChannel);
    case CommandReturns(i, _) => MoveWork(s, t, i, CommandDone);
    case Deliver(i) => MoveWork(s, t, i, InChannel);
    case ReleaseSlot(i) => ReleaseWork(g, s, i);
  }

  lemma ScanWork(g: Graph, s: State)
    requires Sized(g, s) && s.pc.Starting?
    ensures var t := ScanOne(g, s);
            Work(t) < Work(s) || (Work(t) == Work(s) && Turn(g, t) < Turn(g, s))
  {
    if s.pc.next < |g.nodes| { WeightUpdate(s.phase, s.pc.next, WaitingForSlot); }
  }

  /** Loop steps use up the turn, or start a node. */
  lemma LoopStepWork(g: Graph, s: State, step: Step)
    requires Enabled(g, s, step)
    requires PlainStep(step) || step.Scan?
    ensures var t := Apply(g, s, step);
            Work(t) < Work(s) || (Work(t) == Work(s) && Turn(g, t) < Turn(g, s))
  {
    if step.Scan? {
      ScanWork(g, s);
    } else {
      PlainStepFrame(g, s, step);
      TurnFalls(g, s, step);
    }
  }

  lemma TurnFalls(g: Graph, s: State, step: Step)
    requires Enabled(g, s, step) && PlainStep(step)
    ensures Turn(g, Apply(g, s, step)) < Turn(g, s)
  {
  }

  lemma LexicographicDrop(w: nat, t: nat, w': nat, t': nat, k: nat)
    requires t < k && t' < k
    requires w' < w || (w' == w && t' < t)
    ensures w' * k + t' < w * k + t
  {
    if w' < w { assert (w' + 1) * k <= w * k; }
  }

  lemma StepDecreases(g: Graph, s: State, step: Step)
    requires Inv(g, s) && Enabled(g, s, step)
    ensures Measure(g, Apply(g, s, step)) < Measure(g, s)
  {
    if PlainStep(step) || step.Scan? {
      LoopStepWork(g, s, step);
    } else {
      NodeStepWork(g, s, step);
    }
    var t := Apply(g, s, step);
    LexicographicDrop(Work(s), Turn(g, s), Work(t), Turn(g, t), |g.nodes| + 8);
  }

  lemma DecreasesAt(g: Graph, states: seq<State>, steps: seq<Step>, k: nat)
    requires IsRun(g, states, steps) && k < |steps|
    ensures Measure(g, states[k + 1]) < Measure(g, states[k])
  {
    KeepsInvAt(g, states, steps, k);
    StepDecreases(g, states[k], steps[k]);
  }

  /** No run goes on for ever: its length is bounded by the graph alone. */
  lemma {:induction false} RunsAreBounded(g: Graph, states: seq<State>, steps: seq<Step>)
    requires IsRun(g, states, steps)
    ensures |steps| + Measure(g, states[|steps|]) <= Measure(g, Init(g))
  {
    var k := 0;
    while k < |steps|
      invariant 0 <= k <= |steps|
      invariant k + Measure(g, states[k]) <= Measure(g, Init(g))
    {
      DecreasesAt(g, states, steps, k);
      k := k + 1;
    }
  }

  // ---------------------------------------------------------------- never stuck

  lemma SubsetSize<T>(a: set<T>, b: set<T>)
    requires a <= b
    ensures |a| <= |b|
  {
    assert b == a + (b - a);
  }

  ghost function Below(n: nat): (r: set<nat>)
    ensures |r| == n && forall k: nat :: k in r <==> k < n
  {
    if n == 0 then {} else Below(n - 1) + {n - 1}
  }

  function Senders(done: seq<NodeDone>): set<nat> {
    set k | 0 <= k < |done| :: done[k].idx
  }

  lemma {:induction false} DistinctSenders(done: seq<NodeDone>)
    requires forall k, m :: 0 <= k < m < |done| ==> done[k].idx != done[m].idx
    ensures |Senders(done)| == |done|
  {
    if done != [] {
      var k := |done| - 1;
      DistinctSenders(done[..k]);
      assert Senders(done) == Senders(done[..k]) + {done[k].idx} by {
        assert forall m :: 0 <= m < k ==> done[..k][m] == done[m];
      }
      assert done[k].idx !in Senders(done[..k]);
    }
  }

  /** The channel's buffer always has room for a node that has not sent yet. */
  lemma SendFits(g: Graph, s: State, i: nat)
    requires Channel(g, s) && i < |s.phase| && s.phase[i] != InChannel
    ensures |s.done| < |g.nodes|
  {
    var all := Below(|g.nodes|);
    DistinctSenders(s.done);
    forall k | 0 <= k < |s.done| ensures s.done[k].idx in all - {i} {
      assert InPhase(s, s.done[k].idx, InChannel);
    }
    SubsetSize(Senders(s.done), all - {i});
  }

  /** A node whose command is done can always send. */
  lemma SenderNeverBlocks(g: Graph, s: State, i: nat)
    requires Inv(g, s) && InPhase(s, i, CommandDone)
    ensures Enabled(g, s, Deliver(i))
  {
    assert HoldsRightly(s.phase[i], i in s.holders, i in s.returned);
    SendFits(g, s, i);
  }

  /** Whoever holds a slot can move towards its release. */
  lemma HolderCanMove(g: Graph, s: State, i: nat) returns (step: Step)
    requires Inv(g, s) && i in s.holders
    ensures Enabled(g, s, step) && (step.CommandReturns? || step.Deliver? || step.ReleaseSlot?) && step.i == i
  {
    assert HoldsRightly(s.phase[i], i in s.holders, i in s.returned);
    if s.phase[i] == Executing {
      step := CommandReturns(i, SlotWaitError(g, i));
    } else if s.phase[i] == CommandDone {
      SenderNeverBlocks(g, s, i);
      step := Deliver(i);
    } else {
      step := ReleaseSlot(i);
    }
  }

  /** Until Run has returned, something other than a cancellation or a slot wait given up
      can always happen, given a slot; and no sender ever blocks. */
  lemma NeverStuck(g: Graph, s: State) returns (step: Step)
    requires Inv(g, s) && !s.pc.Returned?
    ensures Enabled(g, s, step) && step != Cancel && !step.SlotWaitFails?
    ensures forall i: nat :: InPhase(s, i, CommandDone) ==> Enabled(g, s, Deliver(i))
  {
    forall i: nat | InPhase(s, i, CommandDone) ensures Enabled(g, s, Deliver(i)) { SenderNeverBlocks(g, s, i); }
    match s.pc
    case LoopHead => step := Enter;
    case Starting(_) => step := Scan;
    case Culling => step := Cull;
    case Draining =>
      if s.done == [] { step := DrainEnd; } else { assert InPhase(s, s.done[0].idx, InChannel); step := Receive; }
    case Receiving =>
      if s.inflight == 0 {
        step := Conclude;
      } else if s.done != [] {
        assert InPhase(s, s.done[0].idx, InChannel);
        step := Receive;
      } else {
        var i :| i in InFlight(s.phase);
        assert HoldsRightly(s.phase[i], i in s.holders, i in s.returned);
        assert !HasMessage(s.done, i);
        step := if s.phase[i] == WaitingForSlot then GetSlot(i)
                else if s.phase[i] == Executing then CommandReturns(i, SlotWaitError(g, i))
                else Deliver(i);
      }
  }

  /** A run that has concluded, by a culprit or from outside, waits for nobody's slot: whoever
      still waits for one can give up. */
  lemma ConcludedNeedsNoSlot(g: Graph, s: State) returns (step: Step)
    requires Inv(g, s) && !s.pc.Returned? && (s.culprit != "" || s.cancelled)
    ensures Enabled(g, s, step) && step != Cancel && !step.GetSlot?
  {
    step := NeverStuck(g, s);
    if step.GetSlot? {
      SendFits(g, s, step.i);
      step := SlotWaitFails(step.i);
    }
  }

  /** What holds when Run stops for want of ready nodes. */
  ghost predicate RunDry(g: Graph, s: State) {
    && Stored(g, s) && KeysOk(g, s) && Keep(s) && NothingLeftRunning(s)
    && NothingToStart(g, s, |g.nodes|)
    && RedsAreUnawaited(g, s)
  }

  /** Nobody waits for a node that is not green. */
  ghost predicate RedsAreUnawaited(g: Graph, s: State) {
    forall i: nat, j: nat :: i < |g.nodes| && j < |g.nodes| && IsRed(g, s.results, i) ==> g.nodes[i].name !in g.nodes[j].after
  }

  lemma LeftoverDependency(g: Graph, s: State, n: string) returns (d: string)
    requires Orderly(g.nodes) && RunDry(g, s)
    requires n in NamesOf(g.nodes) && n !in s.results
    ensures d in Deps(EdgesOf(g.nodes), n) && d in NamesOf(g.nodes) && d !in s.results
  {
    var i :| 0 <= i < |g.nodes| && g.nodes[i].name == n;
    assert s.phase[i] == Unstarted;
    assert !Ready(g, s, i);
    d :| d in g.nodes[i].after && !DepGreen(s.results, d);
    DepsOfNode(g.nodes, i);
    if d in s.results {
      var j :| 0 <= j < |g.nodes| && g.nodes[j].name == d;
      assert IsRed(g, s.results, j);
    }
  }

  /** Were there nodes without a result, each would wait for another one. */
  lemma LeftoversAreStuck(g: Graph, s: State)
    requires Orderly(g.nodes) && RunDry(g, s)
    ensures Stuck(EdgesOf(g.nodes), NamesOf(g.nodes) - s.results.Keys)
  {
    forall n | n in NamesOf(g.nodes) && n !in s.results
      ensures exists d :: d in Deps(EdgesOf(g.nodes), n) && d in NamesOf(g.nodes) - s.results.Keys
    {
      var d := LeftoverDependency(g, s, n);
      assert d in NamesOf(g.nodes) - s.results.Keys;
    }
  }

  lemma NothingLeftOver(g: Graph, s: State)
    requires Orderly(g.nodes) && RunDry(g, s)
    ensures NamesOf(g.nodes) - s.results.Keys == {}
  {
    LeftoversAreStuck(g, s);
    NoStuckSet(EdgesOf(g.nodes), NamesOf(g.nodes) - s.results.Keys);
  }

  lemma RunDryIsComplete(g: Graph, s: State)
    requires Orderly(g.nodes) && RunDry(g, s)
    ensures |s.results| == |g.nodes|
  {
    NothingLeftOver(g, s);
    DistinctNamesCount(g.nodes);
    SubsetWithNothingLeft(s.results.Keys, NamesOf(g.nodes));
  }

  /** The "unsatisfiable after edges" error is out of reach for a schedulable graph. */
  lemma SchedulableIsSatisfiable(g: Graph, s: State)
    requires Schedulable(g.nodes) && Inv(g, s) && s.pc.Returned?
    ensures s.pc.err != Unsatisfiable
  {
    if s.pc.err == Unsatisfiable {
      NothingRunsAfterReturn(g, s);
      forall i: nat | i < |g.nodes| ensures !IsRed(g, s.results, i) {
        assert g.nodes[i].name != "";
      }
      RunDryIsComplete(g, s);
    }
  }

  /** Validation, selection and scheduling together: whatever subgraph an environment
      selects from an accepted spec, a run that can go no further and was not cancelled
      has returned, with a culprit or with every selected node green. */
  lemma AcceptedGraphsGetAVerdict(ds: seq<Node>, names: seq<string>, g: Graph, states: seq<State>, steps: seq<Step>)
    requires Accepted(ds) && IsSelection(ds, names, g.nodes)
    requires IsRun(g, states, steps) && forall step :: Enabled(g, states[|steps|], step) ==> step == Cancel
    requires !states[|steps|].cancelled
    ensures var s := states[|steps|];
            && s.pc.Returned? && s.pc.err == NoError
            && (s.pc.culprit == "" ==> AllGreen(g, s, s.pc.rows))
            && |steps| <= Measure(g, Init(g))
  {
    AcceptedSelectionIsSchedulable(ds, names, g.nodes);
    KeepsInvAt(g, states, steps, |steps|);
    RunsAreBounded(g, states, steps);
    StoppedGraphHasVerdict(g, states[|steps|]);
  }

  lemma StoppedGraphHasVerdict(g: Graph, s: State)
    requires Schedulable(g.nodes) && Inv(g, s) && !s.cancelled
    requires forall step :: Enabled(g, s, step) ==> step == Cancel
    ensures s.pc.Returned? && s.pc.err == NoError
    ensures s.pc.culprit == "" ==> AllGreen(g, s, s.pc.rows)
  {
    if !s.pc.Returned? {
      var step := NeverStuck(g, s);
    }
    SchedulableIsSatisfiable(g, s);
    if s.pc.culprit == "" { GreenReturn(g, s); }
  }

  // ---------------------------------------------------------------- fail fast

  /** Nothing more is recorded once the run has concluded, and nothing more is started once
      it has a culprit, or is cancelled outside the start loop. */
  ghost predicate Frozen(s: State, t: State) {
    RecordsFrozen(s, t) && StartsFrozen(s, t)
  }

  predicate RecordsFrozen(s: State, t: State) {
    !Keep(s) ==> t.results == s.results && !Keep(t)
  }

  /** No start loop is running, and none will. */
  predicate Closed(s: State) {
    s.culprit != "" || (s.cancelled && !s.pc.Starting?)
  }

  ghost predicate StartsFrozen(s: State, t: State) {
    && (s.culprit != "" ==> t.culprit == s.culprit)
    && (Closed(s) ==>
          && Closed(t) && |t.phase| == |s.phase|
          && forall i: nat :: i < |s.phase| ==> (t.phase[i] == Unstarted <==> s.phase[i] == Unstarted))
  }

  lemma StartsFrozenStep(g: Graph, s: State, step: Step)
    requires Channel(g, s) && AtPc(g, s) && Enabled(g, s, step)
    ensures StartsFrozen(s, Apply(g, s, step))
  {
    if PlainStep(step) {
      PlainStepFrame(g, s, step);
    } else if step.Receive? {
      assert InPhase(s, s.done[0].idx, InChannel);
    }
  }

  lemma FrozenStep(g: Graph, s: State, step: Step)
    requires Channel(g, s) && AtPc(g, s) && Enabled(g, s, step)
    ensures Frozen(s, Apply(g, s, step))
  {
    StartsFrozenStep(g, s, step);
  }

  lemma FrozenStays(s: State, t: State, u: State)
    requires Frozen(s, t) && Frozen(t, u)
    ensures Frozen(s, u)
  {
  }

  lemma FrozenAt(g: Graph, states: seq<State>, steps: seq<Step>, k: nat)
    requires IsRun(g, states, steps) && k < |steps|
    ensures Frozen(states[k], states[k + 1])
  {
    KeepsInvAt(g, states, steps, k);
    FrozenStep(g, states[k], steps[k]);
  }

  ghost predicate FrozenStepwise(states: seq<State>) {
    forall k, m :: 0 <= k && m == k + 1 && m < |states| ==> Frozen(states[k], states[m])
  }

  lemma {:induction false} FrozenFrom(states: seq<State>, lo: nat, hi: nat)
    requires FrozenStepwise(states) && lo <= hi < |states|
    ensures Frozen(states[lo], states[hi])
    decreases hi
  {
    if lo < hi {
      FrozenFrom(states, lo, hi - 1);
      FrozenStays(states[lo], states[hi - 1], states[hi]);
    }
  }

  lemma FailFast(g: Graph, states: seq<State>, steps: seq<Step>, lo: nat, hi: nat)
    requires IsRun(g, states, steps) && lo <= hi < |states|
    ensures Frozen(states[lo], states[hi])
  {
    forall k, m | 0 <= k && m == k + 1 && m < |states| ensures Frozen(states[k], states[m]) {
      FrozenAt(g, states, steps, k);
    }
    FrozenFrom(states, lo, hi);
  }
}
