/** Why deploy nodes need names. Run reads an empty culprit as "no culprit", so a failing
    node without a name is not blamed: the verdict is exact for exactly those graphs in
    which somebody waits for every such node, and so goes without a result. */
module UnnamedNode {
  import opened Options
  import Graphs
  import opened DeploySpec
  import opened GraphScheduler
  import opened GraphVerdict

  /** Every command turns out green, except that of a node without a name. */
  function Report(g: Graph, i: nat): CheckResult
    requires i < |g.nodes|
  {
    CheckResult(g.nodes[i].name, 0, if g.nodes[i].name == "" then Failed else Passed, false, [], "")
  }

  predicate OnlyUnnamedFail(name: string, r: CheckResult) {
    NodeGreen(r) <==> name != ""
  }

  /** A run that is never cancelled and in which nothing but unnamed commands fails. */
  ghost predicate Adverse(g: Graph, s: State) {
    && !s.cancelled && s.culprit == ""
    && (forall i :: i in s.returned && i < |g.nodes| ==> OnlyUnnamedFail(g.nodes[i].name, s.returned[i]))
    && (forall k :: 0 <= k < |s.done| && s.done[k].idx < |g.nodes| ==> OnlyUnnamedFail(g.nodes[s.done[k].idx].name, s.done[k].res))
    && (forall n :: n in s.results ==> OnlyUnnamedFail(n, s.results[n]))
  }

  lemma AdverseCull(g: Graph, s: State)
    requires Adverse(g, s) && Enabled(g, s, Cull)
    ensures Adverse(g, Apply(g, s, Cull))
  {
    var c := FirstRed(g, s.results, 0);
    assert c < |g.nodes| ==> OnlyUnnamedFail(g.nodes[c].name, s.results[g.nodes[c].name]);
  }

  lemma AdverseNode(g: Graph, s: State, step: Step)
    requires Adverse(g, s) && Enabled(g, s, step) && !PlainStep(step) && !step.SlotWaitFails?
    requires step.CommandReturns? ==> step.res == Report(g, step.i)
    ensures Adverse(g, Apply(g, s, step))
  {
  }

  lemma AdverseStep(g: Graph, s: State, step: Step)
    requires Adverse(g, s) && Enabled(g, s, step) && step != Cancel && !step.SlotWaitFails?
    requires step.CommandReturns? ==> step.res == Report(g, step.i)
    ensures Adverse(g, Apply(g, s, step))
  {
    if step.Cull? {
      AdverseCull(g, s);
    } else if PlainStep(step) {
      PlainStepFrame(g, s, step);
    } else {
      AdverseNode(g, s, step);
    }
  }

  /** Some step keeps the run going that way until it returns. */
  lemma NextAdverse(g: Graph, s: State) returns (step: Step)
    requires Inv(g, s) && Adverse(g, s) && !s.pc.Returned?
    ensures Enabled(g, s, step) && Adverse(g, Apply(g, s, step))
    ensures Measure(g, Apply(g, s, step)) < Measure(g, s)
  {
    step := NeverStuck(g, s);
    if step.CommandReturns? { step := CommandReturns(step.i, Report(g, step.i)); }
    AdverseStep(g, s, step);
    StepDecreases(g, s, step);
  }

  lemma AdverseRun(g: Graph) returns (states: seq<State>, steps: seq<Step>)
    ensures IsRun(g, states, steps) && states[|steps|].pc.Returned? && Adverse(g, states[|steps|])
  {
    states, steps := [Init(g)], [];
    while !states[|steps|].pc.Returned?
      invariant IsRun(g, states, steps) && Adverse(g, states[|steps|])
      decreases Measure(g, states[|steps|])
    {
      KeepsInvAt(g, states, steps, |steps|);
      var step := NextAdverse(g, states[|steps|]);
      ExtendRun(g, states, steps, step);
      states, steps := states + [Apply(g, states[|steps|], step)], steps + [step];
    }
  }

  /** Such a run gets to every node: nobody waits for the ones that fail. */
  lemma AdverseFillsUp(g: Graph, s: State)
    requires Orderly(g.nodes) && !UnnamedAreAwaited(g)
    requires Inv(g, s) && Adverse(g, s) && s.pc.Returned?
    ensures |s.results| == |g.nodes|
  {
    NothingRunsAfterReturn(g, s);
    forall i: nat, j: nat | i < |g.nodes| && j < |g.nodes| && IsRed(g, s.results, i)
      ensures g.nodes[i].name !in g.nodes[j].after
    {
      assert OnlyUnnamedFail(g.nodes[i].name, s.results[g.nodes[i].name]);
    }
    RunDryIsComplete(g, s);
  }

  lemma AdverseReturnIsFalse(g: Graph, s: State)
    requires Orderly(g.nodes) && !UnnamedAreAwaited(g)
    requires Inv(g, s) && Adverse(g, s) && s.pc.Returned?
    ensures s.pc.err == NoError && s.pc.culprit == "" && !AllGreen(g, s, s.pc.rows)
  {
    AdverseFillsUp(g, s);
    GreenReturnFillsUp(g, s);
    RowsAreComplete(g, s.results, "");
    var u: nat :| u < |g.nodes| && g.nodes[u].name == "";
    assert OnlyUnnamedFail("", s.results[""]);
    assert Row(g, s.results, "", u) == Some(s.pc.rows[u]);
  }

  /** A graph with an unnamed node nobody waits for has a run that ends with a failed node
      and no culprit, reported as all green. */
  lemma UnnamedNodeHidesItsFailure(g: Graph) returns (states: seq<State>, steps: seq<Step>)
    requires Orderly(g.nodes) && !UnnamedAreAwaited(g)
    ensures IsRun(g, states, steps)
    ensures var s := states[|steps|];
            s.pc.Returned? && s.pc.err == NoError && s.pc.culprit == "" && !AllGreen(g, s, s.pc.rows)
  {
    states, steps := AdverseRun(g);
    KeepsInvAt(g, states, steps, |steps|);
    AdverseReturnIsFalse(g, states[|steps|]);
  }

  ghost predicate AlwaysExact(g: Graph) {
    forall states: seq<State>, steps: seq<Step> :: IsRun(g, states, steps) && states[|steps|].pc.Returned? ==> Exact(g, states[|steps|])
  }

  /** For every graph with distinct names, inner edges and no cycle: the verdict of every
      run is exact if and only if somebody waits for each unnamed node. */
  lemma ExactExactlyWhenAwaited(g: Graph)
    requires Orderly(g.nodes)
    ensures AlwaysExact(g) <==> UnnamedAreAwaited(g)
  {
    if UnnamedAreAwaited(g) {
      forall states: seq<State>, steps: seq<Step> | IsRun(g, states, steps) && states[|steps|].pc.Returned? ensures Exact(g, states[|steps|]) {
        ExactVerdict(g, states, steps);
      }
    } else {
      var states, steps := UnnamedNodeHidesItsFailure(g);
      assert !Exact(g, states[|steps|]);
    }
  }

  /** A one-node instance: a nameless node, which nobody can wait for. */
  lemma NamelessNode(command: seq<string>, maxParallel: int)
    ensures var g := Graph([Node("", [], command, "")], maxParallel); Orderly(g.nodes) && !UnnamedAreAwaited(g)
  {
    var ds := [Node("", [], command, "")];
    assert ds[..0] == [];
    assert EdgesOf(ds) == map["" := []];
    forall p ensures !Graphs.IsCycle(EdgesOf(ds), p) {
      assert |p| >= 2 ==> p[1] !in Graphs.Deps(EdgesOf(ds), p[0]);
    }
    assert ds[0].name == "";
  }
}
