/** Drain, then cull: every result that had arrived when Run went looking for a failure is
    in its rows. */
module GraphDrain {
  import opened Options
  import opened DeploySpec
  import opened GraphScheduler
  import opened GraphVerdict

  /** The run turns to culling, still without a conclusion. */
  predicate TurnsToCulling(states: seq<State>, e: nat) {
    && 0 < e < |states| && !states[e - 1].pc.Culling? && states[e].pc.Culling?
    && states[e].culprit == "" && !states[e].cancelled
  }

  /** Node i's result had arrived: it was in the channel or already received. */
  predicate Arrived(s: State, i: nat) {
    i < |s.phase| && (s.phase[i] == InChannel || s.phase[i] == Received)
  }

  ghost predicate HasOwnRow(g: Graph, s: State, i: nat)
    requires i < |g.nodes| && s.pc.Returned?
  {
    exists a :: 0 <= a < |s.pc.rows| && OwnRow(g, s, s.pc.rows[a], i)
  }

  /** Whatever had arrived when the run turned to culling is in the rows as it is: a node
      that ran to completion beside a failing one is never reported as blocked. */
  ghost predicate ArrivedIsKept(g: Graph, states: seq<State>, end: State)
    requires end.pc.Returned?
  {
    forall e: nat, i: nat {:trigger TurnsToCulling(states, e), Arrived(states[e], i)} ::
      TurnsToCulling(states, e) && i < |g.nodes| && Arrived(states[e], i) ==>
        && HasOwnRow(g, end, i)
        && (end.pc.culprit != "" ==> i < |end.pc.rows| && OwnRow(g, end, end.pc.rows[i], i))
  }

  /** Run turns to culling with the channel empty. */
  lemma CullingMeansDrained(g: Graph, s: State, step: Step)
    requires Enabled(g, s, step) && !s.pc.Culling? && Apply(g, s, step).pc.Culling?
    ensures Apply(g, s, step).done == []
  {
  }

  lemma ArrivedIsRecorded(g: Graph, states: seq<State>, steps: seq<Step>, e: nat, i: nat)
    requires DistinctNames(g.nodes) && IsRun(g, states, steps)
    requires TurnsToCulling(states, e) && i < |g.nodes| && Arrived(states[e], i)
    ensures g.nodes[i].name in states[e].results
  {
    KeepsInvAt(g, states, steps, e);
    CullingMeansDrained(g, states[e - 1], steps[e - 1]);
    assert states[e].phase[i] == InChannel ==> HasMessage(states[e].done, i);
  }

  lemma GrowsAt(g: Graph, states: seq<State>, steps: seq<Step>, k: nat, n: string)
    requires DistinctNames(g.nodes) && IsRun(g, states, steps) && k < |steps| && n in states[k].results
    ensures n in states[k + 1].results
  {
    KeepsInvAt(g, states, steps, k);
    ResultsOnlyGrow(g, states[k], steps[k]);
  }

  lemma {:induction false} StaysRecorded(g: Graph, states: seq<State>, steps: seq<Step>, n: string, lo: nat, hi: nat)
    requires DistinctNames(g.nodes) && IsRun(g, states, steps) && lo <= hi < |states| && n in states[lo].results
    ensures n in states[hi].results
    decreases hi
  {
    if lo < hi {
      StaysRecorded(g, states, steps, n, lo, hi - 1);
      GrowsAt(g, states, steps, hi - 1, n);
    }
  }

  lemma RecordedHasRow(g: Graph, s: State, i: nat)
    requires Stored(g, s) && i < |g.nodes| && g.nodes[i].name in s.results && s.pc.Returned? && s.pc == Outcome(g, s)
    ensures HasOwnRow(g, s, i)
    ensures s.pc.culprit != "" ==> i < |s.pc.rows| && OwnRow(g, s, s.pc.rows[i], i)
  {
    var row := s.results[g.nodes[i].name].(seqNo := i + 1);
    assert OwnRow(g, s, row, i);
    if s.pc.culprit != "" {
      RowsAreComplete(g, s.results, s.pc.culprit);
      assert Row(g, s.results, s.pc.culprit, i) == Some(s.pc.rows[i]);
    } else {
      RecordedIsListed(g, s.results, i);
    }
  }

  lemma RecordedIsListed(g: Graph, results: map<string, CheckResult>, i: nat)
    requires i < |g.nodes| && g.nodes[i].name in results
    ensures results[g.nodes[i].name].(seqNo := i + 1) in Rows(g, results, "")
  {
    var entries := RowsByNode(g, results, "");
    SomesInSpecOrder(entries);
    assert entries[i] == Some(results[g.nodes[i].name].(seqNo := i + 1));
  }

  lemma ArrivedHasRow(g: Graph, states: seq<State>, steps: seq<Step>, e: nat, i: nat)
    requires DistinctNames(g.nodes) && IsRun(g, states, steps) && states[|steps|].pc.Returned?
    requires TurnsToCulling(states, e) && i < |g.nodes| && Arrived(states[e], i)
    ensures var end := states[|steps|];
            HasOwnRow(g, end, i) && (end.pc.culprit != "" ==> i < |end.pc.rows| && OwnRow(g, end, end.pc.rows[i], i))
  {
    KeepsInvAt(g, states, steps, |steps|);
    ArrivedIsRecorded(g, states, steps, e, i);
    StaysRecorded(g, states, steps, g.nodes[i].name, e, |steps|);
    RecordedHasRow(g, states[|steps|], i);
  }

  lemma NothingArrivedIsLost(g: Graph, states: seq<State>, steps: seq<Step>)
    requires DistinctNames(g.nodes) && IsRun(g, states, steps) && states[|steps|].pc.Returned?
    ensures ArrivedIsKept(g, states, states[|steps|])
  {
    forall e: nat, i: nat | TurnsToCulling(states, e) && i < |g.nodes| && Arrived(states[e], i)
      ensures var end := states[|steps|];
              HasOwnRow(g, end, i) && (end.pc.culprit != "" ==> i < |end.pc.rows| && OwnRow(g, end, end.pc.rows[i], i))
    {
      ArrivedHasRow(g, states, steps, e, i);
    }
  }
}
