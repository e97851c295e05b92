/** Progress with shared slots: a graph run waiting for capacity waits for somebody who can
    move, and when nobody can move every graph has returned its verdict. */
module LaneProgress {
  import opened Tracker
  import opened LaneSafety
  import DeploySpec
  import GS = GraphScheduler
  import GV = GraphVerdict

  /** A step that takes a slot holder towards the release of its slot. */
  predicate HolderMoves(s: State, step: Step) {
    && step.Node? && (step.step.CommandReturns? || step.step.Deliver? || step.step.ReleaseSlot?)
    && (step.r, step.step.i) in s.pool.deploys
  }

  lemma HolderCanMove(c: Config, s: State, r: nat, i: nat) returns (step: Step)
    requires RunsOk(s) && PoolMatches(s) && (r, i) in s.pool.deploys
    ensures Enabled(c, s, step) && HolderMoves(s, step)
  {
    assert r < |s.runs| && i in HoldersOf(s.runs[r]);
    assert RunOk(s.runs[r]);
    var move := GV.HolderCanMove(s.runs[r].graph.value.g, s.runs[r].graph.value.s, i);
    step := Node(r, move);
  }

  /** A full pool has a holder, and every holder can move. */
  lemma FullPoolDrains(c: Config, s: State) returns (step: Step)
    requires Sane(c) && RunsOk(s) && PoolMatches(s) && !Room(c, s.pool, false)
    ensures Enabled(c, s, step) && (HolderMoves(s, step) || step.OtherReleases?)
  {
    if s.pool.others > 0 {
      step := OtherReleases(false);
    } else if s.pool.urgent > 0 {
      step := OtherReleases(true);
    } else {
      assert |s.pool.deploys| > 0;
      var held :| held in s.pool.deploys;
      step := HolderCanMove(c, s, held.0, held.1);
    }
  }

  /** In every reachable state a graph that has not returned can take a step of its own, or
      waits for a slot that another node or another tenant of the pool can be made to free. */
  lemma NoSlotDeadlock(c: Config, states: seq<State>, steps: seq<Step>, k: nat, r: nat) returns (step: Step)
    requires Sane(c) && IsRun(c, states, steps) && k < |states|
    requires r < |states[k].runs| && states[k].runs[r].graph.Some? && !states[k].runs[r].graph.value.s.pc.Returned?
    ensures Enabled(c, states[k], step)
    ensures (step.Node? && step.r == r) || HolderMoves(states[k], step) || step.OtherReleases?
  {
    EveryRunKeepsInv(c, states, steps, k);
    var s := states[k];
    assert RunOk(s.runs[r]);
    var live := s.runs[r].graph.value;
    var own := GV.NeverStuck(live.g, live.s);
    if own.GetSlot? && !Room(c, s.pool, false) {
      step := FullPoolDrains(c, s);
    } else {
      step := Node(r, own);
    }
  }

  // ---------------------------------------------------------------- bounded work

  /** How many of the first k steps were run r's graph's own. */
  function GraphSteps(steps: seq<Step>, r: nat, k: nat): nat
    requires k <= |steps|
  {
    if k == 0 then 0
    else GraphSteps(steps, r, k - 1) + if steps[k - 1].Node? && steps[k - 1].r == r then 1 else 0
  }

  /** What a run has spent and what it has left fit in its graph's bound. */
  ghost predicate Within(run: GraphRun, spent: nat) {
    && (run.graph.Some? ==>
          spent + GV.Measure(run.graph.value.g, run.graph.value.s) <= GV.Measure(run.graph.value.g, GS.Init(run.graph.value.g)))
    && (run.stage.Preparing? ==> spent == 0)
  }

  lemma KillSpendsNothing(run: GraphRun, spent: nat)
    requires RunOk(run) && Within(run, spent)
    ensures Within(Kill(run), spent)
  {
    if run.graph.Some? {
      var live := run.graph.value;
      if !live.s.cancelled && !live.s.pc.Returned? { GV.StepDecreases(live.g, live.s, GS.Cancel); }
    }
  }

  lemma AbortSpendsNothing(run: GraphRun, spent: nat)
    requires Within(run, spent)
    ensures Within(Abort(run), spent)
  {
    if run.graph.Some? {
      var live := run.graph.value;
      GV.LighterMeasure(live.g, live.s, live.s.(holders := {}));
    }
  }

  lemma StartSpendsNothing(c: Config, s: State, r: nat, nodes: seq<DeploySpec.Node>)
    requires Enabled(c, s, GraphStarts(r, nodes))
    ensures |Apply(c, s, GraphStarts(r, nodes)).runs| == |s.runs| && Within(Apply(c, s, GraphStarts(r, nodes)).runs[r], 0)
  {
    var g := GS.Graph(nodes, MaxParallel(c, s.runs[r].env));
    GV.LighterMeasure(g, GS.Init(g), StartedGraph(g, s.runs[r].ctxDead).s);
  }

  lemma StageSpendsNothing(c: Config, s: State, step: Step, spent: nat)
    requires Enabled(c, s, step) && StageStep(step) && Within(s.runs[step.r], spent)
    ensures |Apply(c, s, step).runs| == |s.runs| && Within(Apply(c, s, step).runs[step.r], spent)
  {
    StageStepMoves(c, s, step);
  }

  lemma NodeSpendsOne(c: Config, s: State, r: nat, step: GS.Step, spent: nat)
    requires Enabled(c, s, Node(r, step)) && RunOk(s.runs[r]) && Within(s.runs[r], spent)
    ensures |Apply(c, s, Node(r, step)).runs| == |s.runs| && Within(Apply(c, s, Node(r, step)).runs[r], spent + 1)
  {
    var live := s.runs[r].graph.value;
    GV.StepDecreases(live.g, live.s, step);
  }

  lemma WithinStep(c: Config, s: State, step: Step, r: nat, spent: nat)
    requires Enabled(c, s, step) && r < |s.runs| && RunOk(s.runs[r]) && Within(s.runs[r], spent)
    ensures r < |Apply(c, s, step).runs|
    ensures Within(Apply(c, s, step).runs[r], spent + if step.Node? && step.r == r then 1 else 0)
  {
    if OwnStep(step) && step.r == r {
      if step.Node? {
        NodeSpendsOne(c, s, r, step.step, spent);
      } else if step.GraphStarts? {
        StartSpendsNothing(c, s, r, step.nodes);
      } else {
        StageSpendsNothing(c, s, step, spent);
      }
    } else if OwnStep(step) {
      OwnMovesRun(c, s, step, r);
    } else {
      OthersMoveRun(c, s, step, r);
      if step.Restart? { AbortSpendsNothing(s.runs[r], spent); } else { KillSpendsNothing(s.runs[r], spent); }
    }
  }

  lemma UnbornStep(c: Config, s: State, step: Step, r: nat)
    requires Enabled(c, s, step) && r >= |Apply(c, s, step).runs|
    ensures r >= |s.runs| && !(step.Node? && step.r == r)
  {
    if r < |s.runs| {
      if OwnStep(step) { OwnMovesRun(c, s, step, r); } else { OthersMoveRun(c, s, step, r); }
    }
  }

  /** A run that is not there after a step was not there before it, and did not take it. */
  ghost predicate UnbornStepwise(states: seq<State>, steps: seq<Step>, r: nat)
    requires |states| == |steps| + 1
  {
    forall k, m :: 0 <= k && m == k + 1 && m < |states| && r >= |states[m].runs| ==>
      r >= |states[k].runs| && !(steps[k].Node? && steps[k].r == r)
  }

  lemma {:induction false} UnbornSpendNothing(states: seq<State>, steps: seq<Step>, r: nat, k: nat)
    requires |states| == |steps| + 1 && UnbornStepwise(states, steps, r)
    requires k <= |steps| && r >= |states[k].runs|
    ensures GraphSteps(steps, r, k) == 0
  {
    if k > 0 { UnbornSpendNothing(states, steps, r, k - 1); }
  }

  lemma UnbornBefore(c: Config, states: seq<State>, steps: seq<Step>, r: nat)
    requires IsRun(c, states, steps)
    ensures UnbornStepwise(states, steps, r)
  {
    forall k, m | 0 <= k && m == k + 1 && m < |states| && r >= |states[m].runs|
      ensures r >= |states[k].runs| && !(steps[k].Node? && steps[k].r == r)
    {
      UnbornStep(c, states[k], steps[k], r);
    }
  }

  lemma WithinAt(c: Config, states: seq<State>, steps: seq<Step>, r: nat, k: nat, spent: nat)
    requires Sane(c) && IsRun(c, states, steps) && k < |steps| && r < |states[k].runs| && Within(states[k].runs[r], spent)
    ensures r < |states[k + 1].runs|
    ensures Within(states[k + 1].runs[r], spent + if steps[k].Node? && steps[k].r == r then 1 else 0)
  {
    EveryRunKeepsInv(c, states, steps, k);
    assert RunOk(states[k].runs[r]);
    WithinStep(c, states[k], steps[k], r, spent);
  }

  lemma BornWithin(c: Config, states: seq<State>, steps: seq<Step>, r: nat, k: nat)
    requires IsRun(c, states, steps) && k < |steps| && |states[k].runs| <= r < |states[k + 1].runs|
    ensures Within(states[k + 1].runs[r], GraphSteps(steps, r, k + 1))
  {
    NewRunOk(c, states[k], steps[k], r);
    UnbornBefore(c, states, steps, r);
    UnbornSpendNothing(states, steps, r, k);
    NotItsOwn(c, states[k], steps[k], r);
  }

  lemma NotItsOwn(c: Config, s: State, step: Step, r: nat)
    requires Enabled(c, s, step) && |s.runs| <= r
    ensures !(step.Node? && step.r == r)
  {
  }

  /** Whatever the others do, a graph takes no more steps than its own bound allows. */
  lemma {:induction false} GraphWorkIsBounded(c: Config, states: seq<State>, steps: seq<Step>, r: nat, k: nat)
    requires Sane(c) && IsRun(c, states, steps) && k <= |steps| && r < |states[k].runs|
    ensures Within(states[k].runs[r], GraphSteps(steps, r, k))
  {
    if k > 0 {
      if r < |states[k - 1].runs| {
        GraphWorkIsBounded(c, states, steps, r, k - 1);
        WithinAt(c, states, steps, r, k - 1, GraphSteps(steps, r, k - 1));
      } else {
        BornWithin(c, states, steps, r, k - 1);
      }
    }
  }

  // ---------------------------------------------------------------- everybody gets a verdict

  /** Nothing a graph or a slot holder could do is left to do. */
  ghost predicate Quiet(c: Config, s: State) {
    forall step :: Enabled(c, s, step) ==> !step.Node? && !step.OtherReleases?
  }

  /** The graph has its verdict: cancelled, a culprit, or every node green. */
  ghost predicate HasVerdict(run: GraphRun) {
    && run.graph.Some? && run.graph.value.s.pc.Returned? && run.graph.value.s.holders == {}
    && var live := run.graph.value;
       && GV.Exact(live.g, live.s)
       && (live.s.pc.err == GS.Cancelled
           || (live.s.pc.err == GS.NoError && (live.s.pc.culprit != "" || GV.AllGreen(live.g, live.s, live.s.pc.rows))))
  }

  lemma ReturnedHasVerdict(run: GraphRun)
    requires RunOk(run) && run.graph.Some? && run.graph.value.s.pc.Returned? && run.graph.value.s.holders == {}
    ensures HasVerdict(run)
  {
    var live := run.graph.value;
    GV.SchedulableIsSatisfiable(live.g, live.s);
    GV.ReturnIsExact(live.g, live.s);
  }

  /** With shared, scarce slots: once no graph, no holder and no other tenant has a step
      left, every graph ever started has returned an exact verdict and all its slots. */
  lemma QuietMeansVerdicts(c: Config, states: seq<State>, steps: seq<Step>, r: nat)
    requires Sane(c) && IsRun(c, states, steps) && Quiet(c, states[|steps|])
    requires r < |states[|steps|].runs| && states[|steps|].runs[r].graph.Some?
    ensures HasVerdict(states[|steps|].runs[r])
    ensures GraphSteps(steps, r, |steps|)
            <= GV.Measure(states[|steps|].runs[r].graph.value.g, GS.Init(states[|steps|].runs[r].graph.value.g))
  {
    var s := states[|steps|];
    EveryRunKeepsInv(c, states, steps, |steps|);
    GraphWorkIsBounded(c, states, steps, r, |steps|);
    assert RunOk(s.runs[r]);
    var live := s.runs[r].graph.value;
    if !live.s.pc.Returned? {
      var step := NoSlotDeadlock(c, states, steps, |steps|, r);
    }
    if live.s.holders != {} {
      var i :| i in live.s.holders;
      assert i in HoldersOf(s.runs[r]);
      assert (r, i) in s.pool.deploys;
      var step := HolderCanMove(c, s, r, i);
    }
    ReturnedHasVerdict(s.runs[r]);
  }
}
