/** No overlap: one environment never has two graph runs' commands executing, one run
    never exceeds its parallel cap, and all deploy commands together stay inside the
    ordinary share of the slot pool. */
module LaneSafety {
  import opened Options
  import opened Environments
  import opened Tracker
  import DeploySpec
  import GS = GraphScheduler
  import GV = GraphVerdict

  // ---------------------------------------------------------------- each run

  ghost predicate GraphOk(live: Live) {
    DeploySpec.Schedulable(live.g.nodes) && GS.Inv(live.g, live.s)
  }

  ghost predicate GreenReturn(run: GraphRun) {
    && run.graph.Some? && run.graph.value.s.pc.Returned?
    && run.graph.value.s.pc.err == GS.NoError && run.graph.value.s.pc.culprit == ""
  }

  /** A dead context reaches the graph while Run is going, and nothing else does. A graph
      exists from the moment the run leaves preparation, has returned before the
      run concludes, and has returned green before anything is published. */
  ghost predicate RunOk(run: GraphRun) {
    && (run.graph.Some? ==> GraphOk(run.graph.value))
    && (run.graph.Some? && run.graph.value.s.cancelled ==> run.ctxDead)
    && (run.graph.Some? && run.ctxDead ==> run.graph.value.s.cancelled || run.graph.value.s.pc.Returned?)
    && (run.stage.Preparing? ==> run.graph.None?)
    && (run.stage.Running? ==> run.graph.Some?)
    && (run.stage.Publishing? ==> GreenReturn(run))
    && (run.stage.Concluded? || Over(run.stage) ==> run.graph.Some? ==> run.graph.value.s.pc.Returned?)
    && (run.stage.Concluded? || run.stage.Released? ==> run.stage.outcome == Landed ==> GreenReturn(run))
  }

  ghost predicate RunsOk(s: State) {
    forall r :: 0 <= r < |s.runs| ==> RunOk(s.runs[r])
  }

  lemma KillKeepsRun(run: GraphRun)
    requires RunOk(run)
    ensures RunOk(Kill(run))
  {
    if run.graph.Some? {
      var live := run.graph.value;
      if !live.s.cancelled && !live.s.pc.Returned? {
        GS.InvStep(live.g, live.s, GS.Cancel);
      }
    }
  }

  lemma AbortKeepsRun(run: GraphRun)
    requires RunOk(run)
    ensures RunOk(Abort(run))
  {
    if run.graph.Some? && run.graph.value.s.pc.Returned? {
      GV.ReturnOutlivesSlots(run.graph.value.g, run.graph.value.s);
    }
  }

  lemma StartKeepsRun(g: GS.Graph, ctxDead: bool)
    requires DeploySpec.Schedulable(g.nodes)
    ensures GraphOk(StartedGraph(g, ctxDead))
  {
    GS.InitInv(g);
    if ctxDead { GS.InvStep(g, GS.Init(g), GS.Cancel); }
    assert GS.Init(g).(cancelled := false) == GS.Init(g);
  }

  /** A graph step is no cancellation, and what Run has returned stays returned. */
  lemma GraphStepKeepsReturn(g: GS.Graph, s: GS.State, step: GS.Step)
    requires GS.Enabled(g, s, step) && step != GS.Cancel
    ensures GS.Apply(g, s, step).cancelled == s.cancelled
    ensures s.pc.Returned? ==> GS.Apply(g, s, step).pc == s.pc
  {
  }

  lemma NodeKeepsRun(run: GraphRun, step: GS.Step, next: GS.State)
    requires RunOk(run) && run.graph.Some? && step != GS.Cancel
    requires GS.Enabled(run.graph.value.g, run.graph.value.s, step)
    requires next == GS.Apply(run.graph.value.g, run.graph.value.s, step)
    ensures RunOk(run.(graph := Some(run.graph.value.(s := next))))
  {
    var live := run.graph.value;
    GS.InvStep(live.g, live.s, step);
    GraphStepKeepsReturn(live.g, live.s, step);
  }

  /** The moves of a run's stage. */
  predicate StageMoves(run: GraphRun, to: Stage) {
    match run.stage
    case Preparing => to == Concluded(Rejected) || to == Concluded(Errored)
    case Running => run.graph.Some? && run.graph.value.s.pc.Returned? && to == AfterRun(run)
    case Publishing => to.Concluded?
    case Concluded(o) => to == Released(o)
    case Released(_) => false
    case Aborted => false
  }

  lemma StageKeepsRun(run: GraphRun, to: Stage)
    requires RunOk(run) && StageMoves(run, to)
    ensures RunOk(run.(stage := to))
  {
  }

  predicate OwnStep(step: Step) {
    step.PrepareFails? || step.GraphStarts? || step.Node? || step.Verdict? || step.Publish? || step.Finish?
  }

  /** A step that is not a run's own leaves it alone, cancels it or aborts it. */
  lemma OthersMoveRun(c: Config, s: State, step: Step, r: nat)
    requires Enabled(c, s, step) && r < |s.runs| && !OwnStep(step)
    ensures var t := Apply(c, s, step);
            && r < |t.runs|
            && if step.Restart? then t.runs[r] == Abort(s.runs[r])
               else t.runs[r] == s.runs[r] || t.runs[r] == Kill(s.runs[r])
  {
  }

  predicate StageStep(step: Step) {
    step.PrepareFails? || step.Verdict? || step.Publish? || step.Finish?
  }

  lemma PublishMoves(c: Config, s: State, r: nat, choice: PublishChoice)
    requires Enabled(c, s, Publish(r, choice))
    ensures var t := Apply(c, s, Publish(r, choice));
            && |t.runs| == |s.runs| && t.runs[r].stage.Concluded?
            && t.runs == s.runs[r := s.runs[r].(stage := t.runs[r].stage)]
  {
  }

  lemma StageStepMoves(c: Config, s: State, step: Step)
    requires Enabled(c, s, step) && StageStep(step)
    ensures var t, run := Apply(c, s, step), s.runs[step.r];
            && |t.runs| == |s.runs|
            && t.runs == s.runs[step.r := run.(stage := t.runs[step.r].stage)]
            && StageMoves(run, t.runs[step.r].stage)
  {
    if step.Publish? { PublishMoves(c, s, step.r, step.choice); }
  }

  lemma GraphStepMoves(c: Config, s: State, step: Step)
    requires Enabled(c, s, step) && (step.GraphStarts? || step.Node?)
    ensures var t := Apply(c, s, step);
            |t.runs| == |s.runs| && t.runs == s.runs[step.r := t.runs[step.r]]
  {
  }

  /** A run's own step moves its stage or its graph. */
  lemma OwnMovesRun(c: Config, s: State, step: Step, r: nat)
    requires Enabled(c, s, step) && r < |s.runs| && OwnStep(step)
    ensures var t := Apply(c, s, step);
            && |t.runs| == |s.runs|
            && (step.r != r ==> t.runs[r] == s.runs[r])
            && (step.r == r && StageStep(step) ==>
                  t.runs[r] == s.runs[r].(stage := t.runs[r].stage) && StageMoves(s.runs[r], t.runs[r].stage))
  {
    if StageStep(step) { StageStepMoves(c, s, step); } else { GraphStepMoves(c, s, step); }
  }

  lemma RunStep(c: Config, s: State, step: Step, r: nat, was: GraphRun, now: GraphRun)
    requires Enabled(c, s, step) && r < |s.runs| && r < |Apply(c, s, step).runs|
    requires was == s.runs[r] && now == Apply(c, s, step).runs[r]
    requires RunOk(was)
    ensures RunOk(now)
  {
    if OwnStep(step) { OwnMovesRun(c, s, step, r); } else { OthersMoveRun(c, s, step, r); }
    if now == was {
    } else if now == Kill(was) {
      KillKeepsRun(was);
    } else if step.Restart? {
      AbortKeepsRun(was);
    } else if step.Node? && step.r == r {
      NodeKeepsRun(was, step.step, now.graph.value.s);
    } else if step.GraphStarts? && step.r == r {
      StartKeepsRun(GS.Graph(step.nodes, MaxParallel(c, was.env)), was.ctxDead);
    } else {
      StageKeepsRun(was, now.stage);
    }
  }

  /** Only the second half of a lane's step starts runs, one at a time, and only if the
      lane admits it. */
  lemma WhoStarts(c: Config, s: State, step: Step)
    requires Enabled(c, s, step) && |Apply(c, s, step).runs| > |s.runs|
    ensures step == StepLaneSecond(true)
            && CanStart(c, s, LaneOf(s, c.envs[s.pass.k].name), s.pass.desired, s.pass.observed)
            && Apply(c, s, step).runs
               == s.runs + [GraphRun(c.envs[s.pass.k].name, s.pass.desired, s.pass.observed, s.shutdown, Preparing, None)]
  {
  }

  lemma NewRunOk(c: Config, s: State, step: Step, r: nat)
    requires Enabled(c, s, step) && |s.runs| <= r < |Apply(c, s, step).runs|
    ensures Apply(c, s, step).runs[r].stage == Preparing && Apply(c, s, step).runs[r].graph.None?
  {
    WhoStarts(c, s, step);
  }

  lemma RunsStep(c: Config, s: State, step: Step)
    requires RunsOk(s) && Enabled(c, s, step)
    ensures RunsOk(Apply(c, s, step))
  {
    var t := Apply(c, s, step);
    forall r | 0 <= r < |t.runs| ensures RunOk(t.runs[r]) {
      if r < |s.runs| {
        RunStep(c, s, step, r, s.runs[r], t.runs[r]);
      } else {
        NewRunOk(c, s, step, r);
      }
    }
  }

  // ---------------------------------------------------------------- each lane

  /** A lane that is running points at its own unfinished run and is not parked. */
  ghost predicate LanePointsAtRun(s: State, env: string) {
    var l := LaneOf(s, env);
    l.running.Some? ==>
      && l.running.value < |s.runs|
      && s.runs[l.running.value].env == env
      && !Over(s.runs[l.running.value].stage)
      && l.parked.None?
  }

  /** Every unfinished run is the one its lane points at. */
  ghost predicate RunIsItsLanes(s: State, r: nat)
    requires r < |s.runs|
  {
    !Over(s.runs[r].stage) ==> LaneOf(s, s.runs[r].env).running == Some(r)
  }

  ghost predicate LanesOk(s: State) {
    && (forall env :: LanePointsAtRun(s, env))
    && (forall r: nat :: r < |s.runs| ==> RunIsItsLanes(s, r))
  }

  /** The reconcile goroutine asks the policy only about an idle lane, and nobody else
      starts runs, so the lane is still idle when the answer comes. */
  ghost predicate DecidesForIdleLane(c: Config, s: State) {
    s.pass.Deciding? && s.pass.k < |c.envs| ==> LaneOf(s, c.envs[s.pass.k].name).running.None?
  }

  /** Same runs up to progress inside them, same lanes up to flags a run does not care about. */
  lemma LanesFrame(s: State, t: State)
    requires LanesOk(s)
    requires |t.runs| == |s.runs|
    requires forall r: nat :: r < |s.runs| ==>
               t.runs[r].env == s.runs[r].env && (Over(t.runs[r].stage) <==> Over(s.runs[r].stage))
    requires forall env :: LaneOf(t, env).running == LaneOf(s, env).running
                           && (LaneOf(s, env).parked.None? ==> LaneOf(t, env).parked.None?)
    ensures LanesOk(t)
  {
    forall env ensures LanePointsAtRun(t, env) {
      assert LanePointsAtRun(s, env);
    }
    forall r: nat | r < |t.runs| ensures RunIsItsLanes(t, r) {
      assert RunIsItsLanes(s, r);
    }
  }

  lemma StartKeepsLanes(c: Config, s: State)
    requires LanesOk(s) && DecidesForIdleLane(c, s) && Enabled(c, s, StepLaneSecond(true))
    ensures LanesOk(Apply(c, s, StepLaneSecond(true)))
  {
    var t := Apply(c, s, StepLaneSecond(true));
    forall env ensures LanePointsAtRun(t, env) {
      assert LanePointsAtRun(s, env);
    }
    forall r: nat | r < |t.runs| ensures RunIsItsLanes(t, r) {
      if r < |s.runs| { assert RunIsItsLanes(s, r); }
    }
  }

  lemma FinishKeepsLanes(c: Config, s: State, r: nat)
    requires LanesOk(s) && Enabled(c, s, Finish(r))
    ensures LanesOk(Apply(c, s, Finish(r)))
  {
    var t := Apply(c, s, Finish(r));
    assert RunIsItsLanes(s, r);
    forall env ensures LanePointsAtRun(t, env) {
      assert LanePointsAtRun(s, env);
    }
    forall q: nat | q < |t.runs| ensures RunIsItsLanes(t, q) {
      assert RunIsItsLanes(s, q);
    }
  }

  lemma RestartKeepsLanes(c: Config, s: State)
    ensures LanesOk(Apply(c, s, Restart))
  {
  }

  lemma FirstHalfMemory(c: Config, s: State, env: string)
    requires Enabled(c, s, StepLaneFirst)
    ensures var t := Apply(c, s, StepLaneFirst);
            && |t.runs| == |s.runs|
            && var l, m := LaneOf(s, env), LaneOf(t, env);
               && m.running == l.running && m.synced == l.synced && m.autoRetried == l.autoRetried
               && (m.parked == l.parked || (c.envs[s.pass.k].name == env && l.parked != Some(s.pass.desired) && m.parked.None?))
  {
  }

  /** Outside starts, finishes and restarts a lane's memory changes only by losing a park, and by
      losing the park at sha only when retried or when another revision is wanted. */
  lemma LaneMemoryStays(c: Config, s: State, step: Step, env: string)
    requires Enabled(c, s, step) && !step.Finish? && !step.StepLaneSecond? && !step.Restart?
    ensures var l, m := LaneOf(s, env), LaneOf(Apply(c, s, step), env);
            && |Apply(c, s, step).runs| == |s.runs|
            && m.running == l.running && m.synced == l.synced && m.autoRetried == l.autoRetried
            && (m.parked == l.parked
                || (m.parked.None? && step.Retry? && step.env == env)
                || (m.parked.None? && step.StepLaneFirst? && c.envs[s.pass.k].name == env && l.parked != Some(s.pass.desired)))
  {
    if OwnStep(step) { OwnStepKeepsLanes(c, s, step); } else if step.StepLaneFirst? { FirstHalfMemory(c, s, env); }
  }

  lemma OwnStepKeepsLanes(c: Config, s: State, step: Step)
    requires Enabled(c, s, step) && OwnStep(step) && !step.Finish?
    ensures Apply(c, s, step).lanes == s.lanes && |Apply(c, s, step).runs| == |s.runs|
  {
  }

  /** Except when a run starts or finishes, lanes keep their runs and gain no park. */
  lemma LanesKeepRunning(c: Config, s: State, step: Step, env: string)
    requires Enabled(c, s, step) && step != StepLaneSecond(true) && !step.Finish? && !step.Restart?
    ensures var l, m := LaneOf(s, env), LaneOf(Apply(c, s, step), env);
            m.running == l.running && (l.parked.None? ==> m.parked.None?)
  {
    if !step.StepLaneSecond? { LaneMemoryStays(c, s, step, env); }
  }

  lemma RunsKeepEnv(c: Config, s: State, step: Step, r: nat)
    requires Enabled(c, s, step) && r < |s.runs| && !step.Finish? && !step.Restart?
    ensures var t := Apply(c, s, step);
            && r < |t.runs| && t.runs[r].env == s.runs[r].env
            && (Over(t.runs[r].stage) <==> Over(s.runs[r].stage))
  {
    if OwnStep(step) { OwnMovesRun(c, s, step, r); } else { OthersMoveRun(c, s, step, r); }
  }

  lemma LanesStep(c: Config, s: State, step: Step)
    requires LanesOk(s) && Enabled(c, s, step)
    requires DecidesForIdleLane(c, s)
    ensures LanesOk(Apply(c, s, step))
  {
    if step == StepLaneSecond(true) {
      StartKeepsLanes(c, s);
    } else if step.Finish? {
      FinishKeepsLanes(c, s, step.r);
    } else if step.Restart? {
      RestartKeepsLanes(c, s);
    } else {
      var t := Apply(c, s, step);
      forall r: nat | r < |s.runs|
        ensures t.runs[r].env == s.runs[r].env && (Over(t.runs[r].stage) <==> Over(s.runs[r].stage))
      { RunsKeepEnv(c, s, step, r); }
      forall env ensures LaneOf(t, env).running == LaneOf(s, env).running
                         && (LaneOf(s, env).parked.None? ==> LaneOf(t, env).parked.None?)
      { LanesKeepRunning(c, s, step, env); }
      LanesFrame(s, t);
    }
  }

  /** Only the first half of a lane's step gets the pass to ask the policy. */
  lemma WhoStartsDeciding(c: Config, s: State, step: Step)
    requires Enabled(c, s, step) && !step.StepLaneFirst?
    ensures var t := Apply(c, s, step); t.pass.Deciding? ==> t.pass == s.pass && !step.StepLaneSecond? && !step.Restart?
  {
  }

  lemma FirstHalfDecides(c: Config, s: State)
    requires LanesOk(s) && Enabled(c, s, StepLaneFirst)
    ensures DecidesForIdleLane(c, Apply(c, s, StepLaneFirst))
  {
    assert LanePointsAtRun(s, c.envs[s.pass.k].name);
  }

  lemma FinishLeavesIdle(c: Config, s: State, r: nat, env: string)
    requires Enabled(c, s, Finish(r)) && LaneOf(s, env).running.None?
    ensures LaneOf(Apply(c, s, Finish(r)), env).running.None?
  {
  }

  lemma DecidesStep(c: Config, s: State, step: Step)
    requires LanesOk(s) && Enabled(c, s, step)
    requires DecidesForIdleLane(c, s)
    ensures DecidesForIdleLane(c, Apply(c, s, step))
  {
    if step.StepLaneFirst? {
      FirstHalfDecides(c, s);
    } else {
      WhoStartsDeciding(c, s, step);
      var t := Apply(c, s, step);
      if t.pass.Deciding? && t.pass.k < |c.envs| {
        var env := c.envs[s.pass.k].name;
        if step.Finish? { FinishLeavesIdle(c, s, step.r, env); } else { LanesKeepRunning(c, s, step, env); }
      }
    }
  }

  // ---------------------------------------------------------------- the slot pool

  function HoldersOf(run: GraphRun): set<nat> {
    if run.graph.Some? then run.graph.value.s.holders else {}
  }

  /** The pool's deploy slots are exactly those the runs' nodes hold. */
  ghost predicate PoolMatches(s: State) {
    forall r: nat, i: nat :: (r, i) in s.pool.deploys <==> r < |s.runs| && i in HoldersOf(s.runs[r])
  }

  ghost predicate PoolBounded(c: Config, s: State) {
    c.capacity.Limited? ==>
      && |s.pool.deploys| + s.pool.others <= c.capacity.limit - c.capacity.reserve
      && Used(s.pool) <= c.capacity.limit
  }

  ghost predicate Sane(c: Config) {
    DistinctEnvs(c.envs) && (c.capacity.Limited? ==> c.capacity.reserve < c.capacity.limit)
  }

  lemma KillKeepsHolders(run: GraphRun)
    ensures HoldersOf(Kill(run)) == HoldersOf(run)
  {
  }

  lemma NodeHolders(g: GS.Graph, s: GS.State, step: GS.Step)
    requires GS.Enabled(g, s, step)
    ensures GS.Apply(g, s, step).holders
            == if step.GetSlot? then s.holders + {step.i}
               else if step.ReleaseSlot? then s.holders - {step.i} else s.holders
  {
  }

  lemma HoldersStay(c: Config, s: State, step: Step, r: nat)
    requires Enabled(c, s, step) && r < |s.runs| && RunOk(s.runs[r])
    requires !(step.Node? && step.r == r) && !step.Restart?
    ensures r < |Apply(c, s, step).runs|
    ensures HoldersOf(Apply(c, s, step).runs[r]) == HoldersOf(s.runs[r])
  {
    KillKeepsHolders(s.runs[r]);
    if OwnStep(step) { OwnMovesRun(c, s, step, r); } else { OthersMoveRun(c, s, step, r); }
  }

  /** Only node steps touch the deploy slots. */
  lemma DeploySlots(c: Config, s: State, step: Step)
    requires Enabled(c, s, step) && !step.Restart?
    ensures Apply(c, s, step).pool.deploys
            == if step.Node? && step.step.GetSlot? then s.pool.deploys + {(step.r, step.step.i)}
               else if step.Node? && step.step.ReleaseSlot? then s.pool.deploys - {(step.r, step.step.i)}
               else s.pool.deploys
  {
  }

  lemma NodeRunHolders(c: Config, s: State, step: Step)
    requires Enabled(c, s, step) && step.Node?
    ensures |Apply(c, s, step).runs| == |s.runs|
    ensures HoldersOf(Apply(c, s, step).runs[step.r])
            == if step.step.GetSlot? then HoldersOf(s.runs[step.r]) + {step.step.i}
               else if step.step.ReleaseSlot? then HoldersOf(s.runs[step.r]) - {step.step.i}
               else HoldersOf(s.runs[step.r])
  {
    NodeHolders(s.runs[step.r].graph.value.g, s.runs[step.r].graph.value.s, step.step);
  }

  lemma PoolMatchesRestart(c: Config, s: State)
    ensures PoolMatches(Apply(c, s, Restart))
  {
  }

  lemma PoolMatchesStep(c: Config, s: State, step: Step)
    requires RunsOk(s) && PoolMatches(s) && Enabled(c, s, step) && !step.Restart?
    ensures PoolMatches(Apply(c, s, step))
  {
    var t := Apply(c, s, step);
    DeploySlots(c, s, step);
    if step.Node? { NodeRunHolders(c, s, step); }
    forall r: nat, i: nat
      ensures (r, i) in t.pool.deploys <==> r < |t.runs| && i in HoldersOf(t.runs[r])
    {
      assert (r, i) in s.pool.deploys <==> r < |s.runs| && i in HoldersOf(s.runs[r]);
      if r >= |s.runs| {
        if r < |t.runs| { NewRunOk(c, s, step, r); }
      } else if !(step.Node? && step.r == r) {
        assert RunOk(s.runs[r]);
        HoldersStay(c, s, step, r);
      }
    }
  }

  /** Room for one more of this kind. */
  lemma RoomMeansBelow(c: Config, p: Pool, urgent: bool)
    requires Room(c, p, urgent) && c.capacity.Limited?
    ensures Used(p) + 1 <= c.capacity.limit && (!urgent ==> Used(p) + 1 <= c.capacity.limit - c.capacity.reserve)
  {
  }

  lemma NodeStepFits(c: Config, s: State, r: nat, step: GS.Step)
    requires PoolBounded(c, s) && Enabled(c, s, Node(r, step))
    ensures PoolBounded(c, Apply(c, s, Node(r, step)))
  {
    assert step.GetSlot? ==> |s.pool.deploys + {(r, step.i)}| <= |s.pool.deploys| + 1;
    assert step.ReleaseSlot? ==> |s.pool.deploys - {(r, step.i)}| <= |s.pool.deploys|;
    if step.GetSlot? && c.capacity.Limited? { RoomMeansBelow(c, s.pool, false); }
  }

  /** Who touches the slot pool. */
  predicate PoolStep(step: Step) {
    step.Node? || step.OtherAcquires? || step.OtherReleases? || step.Restart?
  }

  lemma OthersKeepPool(c: Config, s: State, step: Step)
    requires Enabled(c, s, step) && !PoolStep(step)
    ensures Apply(c, s, step).pool == s.pool
  {
  }

  lemma PoolBoundedStep(c: Config, s: State, step: Step)
    requires Sane(c) && PoolBounded(c, s) && Enabled(c, s, step)
    ensures PoolBounded(c, Apply(c, s, step))
  {
    if step.Node? {
      NodeStepFits(c, s, step.r, step.step);
    } else if !PoolStep(step) {
      OthersKeepPool(c, s, step);
    }
  }

  // ---------------------------------------------------------------- graphs and configuration

  ghost predicate Configured(c: Config, env: string) {
    exists i :: 0 <= i < |c.envs| && c.envs[i].name == env
  }

  /** A run belongs to a configured environment; its graph is not empty and runs under that
      environment's own cap. */
  ghost predicate FromConfig(c: Config, run: GraphRun) {
    && Configured(c, run.env)
    && (run.graph.Some? ==>
          && run.graph.value.g.nodes != []
          && forall i :: 0 <= i < |c.envs| && c.envs[i].name == run.env ==> run.graph.value.g.maxParallel == c.envs[i].maxParallel)
  }

  lemma {:induction false} CapOf(envs: seq<Environment>, i: nat)
    requires DistinctEnvs(envs) && i < |envs|
    ensures MaxParallelIn(envs, envs[i].name) == envs[i].maxParallel
  {
    if i > 0 {
      assert envs[0].name != envs[i].name;
      CapOf(envs[1..], i - 1);
    }
  }

  ghost predicate GraphsFromConfig(c: Config, s: State) {
    forall r: nat :: r < |s.runs| ==> FromConfig(c, s.runs[r])
  }

  lemma GraphStepConfig(c: Config, s: State, step: Step)
    requires Sane(c) && Enabled(c, s, step) && (step.GraphStarts? || step.Node?) && FromConfig(c, s.runs[step.r])
    ensures |Apply(c, s, step).runs| == |s.runs| && FromConfig(c, Apply(c, s, step).runs[step.r])
  {
    forall i: nat | i < |c.envs| ensures MaxParallel(c, c.envs[i].name) == c.envs[i].maxParallel { CapOf(c.envs, i); }
  }

  lemma GraphsFromConfigStep(c: Config, s: State, step: Step)
    requires Sane(c) && GraphsFromConfig(c, s) && Enabled(c, s, step)
    ensures GraphsFromConfig(c, Apply(c, s, step))
  {
    var t := Apply(c, s, step);
    forall r: nat | r < |t.runs| ensures FromConfig(c, t.runs[r]) {
      if r >= |s.runs| {
        NewRunOk(c, s, step, r);
        WhoStarts(c, s, step);
        assert t.runs[r].env == c.envs[s.pass.k].name;
      } else {
        assert FromConfig(c, s.runs[r]);
        if OwnStep(step) { OwnMovesRun(c, s, step, r); } else { OthersMoveRun(c, s, step, r); }
        if (step.GraphStarts? || step.Node?) && step.r == r { GraphStepConfig(c, s, step); }
      }
    }
  }

  // ---------------------------------------------------------------- signals

  /** A lane marked as signalled has a run whose context is dead. */
  ghost predicate SignalOk(s: State, env: string) {
    var l := LaneOf(s, env);
    l.cancelled && l.running.Some? && l.running.value < |s.runs| ==> s.runs[l.running.value].ctxDead
  }

  /** Every signal has been delivered, the daemon's own end to every run still going. */
  ghost predicate SignalsOk(s: State) {
    && (forall env :: SignalOk(s, env))
    && (s.shutdown ==> forall r: nat :: r < |s.runs| && !Over(s.runs[r].stage) ==> s.runs[r].ctxDead)
  }

  lemma DeadStaysDead(c: Config, s: State, step: Step, r: nat)
    requires Enabled(c, s, step) && r < |s.runs|
    ensures r < |Apply(c, s, step).runs|
    ensures s.runs[r].ctxDead ==> Apply(c, s, step).runs[r].ctxDead
    ensures Over(s.runs[r].stage) ==> Over(Apply(c, s, step).runs[r].stage)
  {
    if OwnStep(step) { OwnMovesRun(c, s, step, r); } else { OthersMoveRun(c, s, step, r); }
  }

  /** A lane is marked as signalled only together with the signal itself. */
  lemma MarkedWithSignal(c: Config, s: State, step: Step, env: string)
    requires LanesOk(s) && Enabled(c, s, step) && !step.Restart? && !step.Finish? && !step.StepLaneSecond?
    requires !LaneOf(s, env).cancelled && LaneOf(Apply(c, s, step), env).cancelled
    ensures LaneOf(s, env).running.Some? && LaneOf(s, env).running.value < |Apply(c, s, step).runs|
            && Apply(c, s, step).runs[LaneOf(s, env).running.value].ctxDead
  {
    assert LanePointsAtRun(s, env);
    if OwnStep(step) { OwnStepKeepsLanes(c, s, step); }
  }

  lemma SignalStep(c: Config, s: State, step: Step, env: string)
    requires LanesOk(s) && SignalOk(s, env) && Enabled(c, s, step)
    ensures SignalOk(Apply(c, s, step), env)
  {
    var l := LaneOf(s, env);
    assert LanePointsAtRun(s, env);
    if l.running.Some? { DeadStaysDead(c, s, step, l.running.value); }
    if step.StepLaneSecond? || step.Finish? {
      UnmarkedOrSame(c, s, step, env);
    } else if !step.Restart? {
      LaneMemoryStays(c, s, step, env);
      if !l.cancelled && LaneOf(Apply(c, s, step), env).cancelled { MarkedWithSignal(c, s, step, env); }
    }
  }

  lemma UnmarkedOrSame(c: Config, s: State, step: Step, env: string)
    requires Enabled(c, s, step) && (step.StepLaneSecond? || step.Finish?)
    ensures var l, m := LaneOf(s, env), LaneOf(Apply(c, s, step), env); m == l || !m.cancelled
  {
  }

  lemma ShutdownStep(c: Config, s: State, step: Step)
    requires SignalsOk(s) && Enabled(c, s, step)
    ensures var t := Apply(c, s, step);
            t.shutdown ==> forall r: nat :: r < |t.runs| && !Over(t.runs[r].stage) ==> t.runs[r].ctxDead
  {
    var t := Apply(c, s, step);
    WhoShutsDown(c, s, step);
    if t.shutdown {
      forall r: nat | r < |t.runs| && !Over(t.runs[r].stage) ensures t.runs[r].ctxDead {
        if r >= |s.runs| {
          WhoStarts(c, s, step);
        } else if step.Shutdown? {
          assert t.runs[r] == Kill(s.runs[r]);
        } else {
          DeadStaysDead(c, s, step, r);
        }
      }
    }
  }

  lemma WhoShutsDown(c: Config, s: State, step: Step)
    requires Enabled(c, s, step)
    ensures Apply(c, s, step).shutdown ==> s.shutdown || step.Shutdown?
  {
  }

  lemma SignalsStep(c: Config, s: State, step: Step)
    requires LanesOk(s) && SignalsOk(s) && Enabled(c, s, step)
    ensures SignalsOk(Apply(c, s, step))
  {
    forall env ensures SignalOk(Apply(c, s, step), env) { SignalStep(c, s, step, env); }
    ShutdownStep(c, s, step);
  }

  // ---------------------------------------------------------------- whole runs

  ghost predicate Inv(c: Config, s: State) {
    && RunsOk(s) && LanesOk(s) && DecidesForIdleLane(c, s)
    && PoolMatches(s) && PoolBounded(c, s) && GraphsFromConfig(c, s) && SignalsOk(s)
  }

  lemma InvStep(c: Config, s: State, step: Step)
    requires Sane(c) && Inv(c, s) && Enabled(c, s, step)
    ensures Inv(c, Apply(c, s, step))
  {
    RunsStep(c, s, step);
    LanesStep(c, s, step);
    DecidesStep(c, s, step);
    if step.Restart? { PoolMatchesRestart(c, s); } else { PoolMatchesStep(c, s, step); }
    PoolBoundedStep(c, s, step);
    GraphsFromConfigStep(c, s, step);
    SignalsStep(c, s, step);
  }

  lemma {:induction false} EveryRunKeepsInv(c: Config, states: seq<State>, steps: seq<Step>, k: nat)
    requires Sane(c) && IsRun(c, states, steps) && k < |states|
    ensures Inv(c, states[k])
  {
    if k > 0 {
      EveryRunKeepsInv(c, states, steps, k - 1);
      InvStep(c, states[k - 1], steps[k - 1]);
    }
  }

  /** The nodes of a run whose command is executing. */
  function Executing(run: GraphRun): set<nat> {
    if run.graph.None? then {}
    else
      var phase := run.graph.value.s.phase;
      set i: nat | i < |phase| && phase[i] == GS.Executing
  }

  function AllExecuting(s: State): set<(nat, nat)> {
    set r: nat, i: nat | r < |s.runs| && i in Executing(s.runs[r]) :: (r, i)
  }

  lemma NothingExecutesWhenOver(run: GraphRun)
    requires RunOk(run) && Over(run.stage)
    ensures Executing(run) == {}
  {
    if run.graph.Some? { GV.NothingRunsAfterReturn(run.graph.value.g, run.graph.value.s); }
  }

  lemma ExecutingHoldsSlot(run: GraphRun)
    requires RunOk(run)
    ensures Executing(run) <= HoldersOf(run)
  {
    forall i | i in Executing(run) ensures i in HoldersOf(run) {
      var s := run.graph.value.s;
      assert GS.HoldsRightly(s.phase[i], i in s.holders, i in s.returned);
    }
  }

  lemma SetSize<T>(a: set<T>, b: set<T>)
    requires a <= b
    ensures |a| <= |b|
  {
    assert b == a + (b - a);
  }

  function AtLeastOne(n: int): nat {
    if n < 1 then 1 else n
  }

  /** In every reachable state: two graph runs of one environment never both have a command
      executing, no run has more nodes in flight than its environment's cap, and with a shared pool all
      executing deploy commands together fit in the ordinary share of the slots. */
  lemma NoOverlap(c: Config, states: seq<State>, steps: seq<Step>, k: nat, r: nat, q: nat)
    requires Sane(c) && IsRun(c, states, steps) && k < |states|
    requires r < |states[k].runs| && q < |states[k].runs|
    ensures var s := states[k];
            && (r != q && s.runs[r].env == s.runs[q].env ==> Executing(s.runs[r]) == {} || Executing(s.runs[q]) == {})
            && Configured(c, s.runs[r].env)
            && (forall i :: 0 <= i < |c.envs| && c.envs[i].name == s.runs[r].env && s.runs[r].graph.Some? ==>
                  |GS.InFlight(s.runs[r].graph.value.s.phase)| <= AtLeastOne(c.envs[i].maxParallel))
            && (c.capacity.Limited? ==> |AllExecuting(s)| <= c.capacity.limit - c.capacity.reserve)
  {
    EveryRunKeepsInv(c, states, steps, k);
    var s := states[k];
    assert RunOk(s.runs[r]) && RunOk(s.runs[q]) && FromConfig(c, s.runs[r]);
    if r != q && s.runs[r].env == s.runs[q].env {
      assert RunIsItsLanes(s, r) && RunIsItsLanes(s, q);
      if Over(s.runs[r].stage) { NothingExecutesWhenOver(s.runs[r]); }
      if Over(s.runs[q].stage) { NothingExecutesWhenOver(s.runs[q]); }
    }
    ExecutingFits(s);
  }

  lemma ExecutingFits(s: State)
    requires RunsOk(s) && PoolMatches(s)
    ensures |AllExecuting(s)| <= |s.pool.deploys|
  {
    forall p | p in AllExecuting(s) ensures p in s.pool.deploys {
      var r, i := p.0, p.1;
      ExecutingHoldsSlot(s.runs[r]);
      assert (r, i) in s.pool.deploys;
    }
    SetSize(AllExecuting(s), s.pool.deploys);
  }

  /** The step cancels run r for one of the three reasons there are. */
  ghost predicate CancelsFor(c: Config, s: State, step: Step, run: GraphRun) {
    || step.Shutdown?
    || step == CancelCurrent(run.env)
    || (step.StepLaneFirst? && s.pass.Stepping? && s.pass.k < |c.envs|
        && c.envs[s.pass.k].name == run.env && c.envs[s.pass.k].onMove == CancelRun
        && s.pass.desired != "" && s.pass.desired != run.sha)
  }

  lemma CauseOfCancellation(c: Config, s: State, step: Step, r: nat)
    requires LanesOk(s) && Enabled(c, s, step) && r < |s.runs| && !CancelsFor(c, s, step, s.runs[r])
    ensures r < |Apply(c, s, step).runs| && Apply(c, s, step).runs[r].ctxDead == s.runs[r].ctxDead
  {
    if OwnStep(step) {
      OwnMovesRun(c, s, step, r);
    } else {
      OthersMoveRun(c, s, step, r);
      if step.StepLaneFirst? { assert LanePointsAtRun(s, c.envs[s.pass.k].name); }
      if step.CancelCurrent? { assert LanePointsAtRun(s, step.env); }
    }
  }

  /** A run's context only dies by the operator's hand, with the daemon, or because its
      environment asks for it and another revision is wanted: a `finish` environment's run
      is never cancelled by a moving desired ref. */
  lemma CancellationHasACause(c: Config, states: seq<State>, steps: seq<Step>, k: nat, r: nat)
    requires Sane(c) && IsRun(c, states, steps) && k < |steps| && r < |states[k].runs|
    ensures r < |states[k + 1].runs|
    ensures states[k + 1].runs[r].ctxDead && !states[k].runs[r].ctxDead ==>
              CancelsFor(c, states[k], steps[k], states[k].runs[r])
  {
    var s, step := states[k], steps[k];
    EveryRunKeepsInv(c, states, steps, k);
    if OwnStep(step) { OwnMovesRun(c, s, step, r); } else { OthersMoveRun(c, s, step, r); }
    if !CancelsFor(c, s, step, s.runs[r]) { CauseOfCancellation(c, s, step, r); }
  }

  /** And it does die then, whenever one of the three reasons is given, and with it the
      graph's own context if Run has not returned. */
  lemma CancellationWorks(c: Config, states: seq<State>, steps: seq<Step>, k: nat, r: nat)
    requires Sane(c) && IsRun(c, states, steps) && k < |steps| && r < |states[k].runs|
    requires !Over(states[k].runs[r].stage) && CancelsFor(c, states[k], steps[k], states[k].runs[r])
    ensures r < |states[k + 1].runs| && states[k + 1].runs[r].ctxDead
    ensures var run := states[k + 1].runs[r];
            run.graph.Some? ==> run.graph.value.s.cancelled || run.graph.value.s.pc.Returned?
  {
    var s, step := states[k], steps[k];
    EveryRunKeepsInv(c, states, steps, k);
    EveryRunKeepsInv(c, states, steps, k + 1);
    assert RunIsItsLanes(s, r);
    SignalIsDelivered(c, s, step, r);
    assert RunOk(states[k + 1].runs[r]);
  }

  lemma SignalIsDelivered(c: Config, s: State, step: Step, r: nat)
    requires Enabled(c, s, step) && r < |s.runs| && LaneOf(s, s.runs[r].env).running == Some(r)
    requires SignalOk(s, s.runs[r].env) && CancelsFor(c, s, step, s.runs[r])
    ensures r < |Apply(c, s, step).runs| && Apply(c, s, step).runs[r].ctxDead
  {
    DeadStaysDead(c, s, step, r);
  }

  /** A run that is going when the daemon's context has ended has a dead context itself. */
  lemma ShutdownIsFinal(c: Config, states: seq<State>, steps: seq<Step>, k: nat, r: nat)
    requires Sane(c) && IsRun(c, states, steps) && k < |states| && r < |states[k].runs|
    requires states[k].shutdown && !Over(states[k].runs[r].stage)
    ensures states[k].runs[r].ctxDead
  {
    EveryRunKeepsInv(c, states, steps, k);
  }
}
