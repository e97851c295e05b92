/** The deploy-ref tracker and its lane runner as one transition system: the reconcile
    pass, one lane per environment, the graph runs the lanes start, the shared slot pool,
    the remote refs with a lagging mirror, the operator and the people who push. */
module Tracker {
  import opened Options
  import opened Environments
  import DeploySpec
  import SlotPool
  import GS = GraphScheduler

  type Sha = string

  datatype Ref = Desired(env: string) | Observed(env: string) | Branch(name: string)

  /** Who wrote: a person, a promotion that had read `read`, or a graph run. */
  datatype Writer = Human | Promotion(read: Sha) | ByRun(run: nat)

  /** One accepted update of a remote ref. */
  datatype Write = Write(ref: Ref, sha: Sha, writer: Writer)

  datatype Capacity = Unlimited | Limited(limit: nat, reserve: nat)

  datatype Config = Config(
    envs: seq<Environment>, runnable: bool, autoRetry: bool, capacity: Capacity)

  datatype Outcome = Landed | Skipped | Rejected | Errored

  /** Aborted: the daemon died before the run released its lane. */
  datatype Stage =
    | Preparing
    | Running
    | Publishing
    | Concluded(outcome: Outcome)
    | Released(outcome: Outcome)
    | Aborted

  /** The run is over, for good. */
  predicate Over(stage: Stage) {
    stage.Released? || stage.Aborted?
  }

  datatype Live = Live(g: GS.Graph, s: GS.State)

  /** One graph run; its number is its position in the list of runs. */
  datatype GraphRun = GraphRun(env: string, sha: Sha, prev: Sha, ctxDead: bool, stage: Stage, graph: Option<Live>)

  datatype Lane = Lane(running: Option<nat>, cancelled: bool, parked: Option<Sha>, synced: Sha, autoRetried: Sha)

  /** Where the single reconcile goroutine stands: between passes, about to advance the
      desired ref of the k-th environment, about to step its lane, or waiting for the
      admission policy with the lock dropped. */
  datatype Pass =
    | Between
    | Promoting(k: nat, refs: map<Ref, Sha>)
    | Stepping(k: nat, refs: map<Ref, Sha>, desired: Sha, observed: Sha)
    | Deciding(k: nat, refs: map<Ref, Sha>, desired: Sha, observed: Sha)

  /** Slots out: (run, node) pairs of deploy nodes, other ordinary holders, urgent holders. */
  datatype Pool = Pool(deploys: set<(nat, nat)>, others: nat, urgent: nat)

  datatype State = State(
    log: seq<Write>, lanes: map<string, Lane>, draining: bool, shutdown: bool,
    pass: Pass, runs: seq<GraphRun>, pool: Pool)

  /** What becomes of a push: it never reaches the remote, its answer comes back, or the
      remote takes it and the answer is lost, which the daemon sees as a failure. */
  datatype Fate = Lost | Answered | Unanswered

  datatype PublishChoice = Refused | Pushed(fate: Fate)

  datatype Step =
    | Push(ref: Ref, sha: Sha)
    | BeginPass(refs: map<Ref, Sha>)
    | Promote(fate: Fate)
    | StepLaneFirst
    | StepLaneSecond(allow: bool)
    | EndPass
    | Retry(env: string)
    | CancelCurrent(env: string)
    | Drain
    | Shutdown
    | Restart
    | PrepareFails(r: nat, outcome: Outcome)
    | GraphStarts(r: nat, nodes: seq<DeploySpec.Node>)
    | Node(r: nat, step: GS.Step)
    | Verdict(r: nat)
    | Publish(r: nat, choice: PublishChoice)
    | Finish(r: nat)
    | OtherAcquires(urgent: bool)
    | OtherReleases(urgent: bool)

  const IDLE_LANE := Lane(None, false, None, "", "")

  const NO_SLOTS_OUT := Pool({}, 0, 0)

  function Init(): State {
    State([], map[], false, false, Between, [], NO_SLOTS_OUT)
  }

  // ---------------------------------------------------------------- refs

  /** A ref's value on the remote; "" when it does not exist. */
  function Current(log: seq<Write>, ref: Ref): Sha {
    if log == [] then ""
    else if log[|log| - 1].ref == ref then log[|log| - 1].sha
    else Current(log[..|log| - 1], ref)
  }

  ghost predicate Written(log: seq<Write>, ref: Ref, sha: Sha) {
    exists k :: 0 <= k < |log| && log[k].ref == ref && log[k].sha == sha
  }

  function Lookup(refs: map<Ref, Sha>, ref: Ref): Sha {
    if ref in refs then refs[ref] else ""
  }

  /** The mirror may show any value the remote ref ever had, or none. */
  ghost predicate Mirrors(log: seq<Write>, refs: map<Ref, Sha>) {
    forall ref :: ref in refs && refs[ref] != "" ==> Written(log, ref, refs[ref])
  }

  function SourceTip(env: Environment, refs: map<Ref, Sha>): Sha {
    match env.source
    case FromBranch(b) => Lookup(refs, Branch(b))
    case FromEnv(e) => Lookup(refs, Observed(e))
  }

  predicate IsManual(c: Config, env: string) {
    forall i :: 0 <= i < |c.envs| && c.envs[i].name == env ==> c.envs[i].mode == Manual
  }

  /** Who may push what by hand: branches, and the desired refs the daemon does not own. */
  predicate HumanOwned(c: Config, ref: Ref) {
    match ref
    case Branch(_) => true
    case Desired(env) => IsManual(c, env)
    case Observed(_) => false
  }

  // ---------------------------------------------------------------- lanes

  function LaneOf(s: State, env: string): Lane {
    if env in s.lanes then s.lanes[env] else IDLE_LANE
  }

  predicate CanStart(c: Config, s: State, l: Lane, desired: Sha, observed: Sha) {
    && c.runnable && !s.draining
    && desired != "" && desired != observed
    && l.synced != desired
    && l.parked.None?
  }

  /** A park is about one desired revision; any other desired revision clears it. */
  function Unpark(l: Lane, desired: Sha): Lane {
    if l.parked.Some? && l.parked.value != desired then l.(parked := None) else l
  }

  /** Applying a finished run's outcome to its lane: a landed run marks its revision
      synced, a skipped one leaves no trace, any other parks its revision unless the
      one automatic retry of an error is still available. */
  function ReleaseLane(c: Config, draining: bool, l: Lane, sha: Sha, outcome: Outcome): Lane {
    var idle := l.(running := None, cancelled := false);
    match outcome
    case Landed => idle.(synced := sha, parked := None)
    case Skipped => idle
    case _ =>
      if outcome == Errored && c.autoRetry && !draining && l.autoRetried != sha
      then idle.(autoRetried := sha, parked := None)
      else idle.(parked := Some(sha))
  }

  // ---------------------------------------------------------------- runs

  /** Cancelling a run's context reaches its graph, if Run is still going. */
  function Kill(run: GraphRun): GraphRun {
    match run.graph
    case None => run.(ctxDead := true)
    case Some(live) =>
      if live.s.cancelled || live.s.pc.Returned? then run.(ctxDead := true)
      else run.(ctxDead := true, graph := Some(live.(s := live.s.(cancelled := true))))
  }

  /** The daemon dies with its commands; a run that had already returned stays on record. */
  function Abort(run: GraphRun): GraphRun {
    run.(stage := if run.stage.Released? then run.stage else Aborted,
         graph := match run.graph
                  case None => None
                  case Some(live) =>
                    if live.s.pc.Returned? then Some(live.(s := live.s.(holders := {}))) else None)
  }

  function StartedGraph(g: GS.Graph, ctxDead: bool): Live {
    Live(g, GS.Init(g).(cancelled := ctxDead))
  }

  /** The terminal mapping of what Run returned; a green run goes on to publish. */
  function AfterRun(run: GraphRun): Stage
    requires run.graph.Some? && run.graph.value.s.pc.Returned?
  {
    var pc := run.graph.value.s.pc;
    if pc.err != GS.NoError && run.ctxDead then Concluded(Skipped)
    else if pc.err != GS.NoError then Concluded(Errored)
    else if pc.culprit != "" then
      if CulpritErred(pc.rows, pc.culprit) then Concluded(Errored) else Concluded(Rejected)
    else Publishing
  }

  /** The first row carrying the culprit's name has an Err. */
  predicate CulpritErred(rows: seq<GS.CheckResult>, culprit: string) {
    rows != [] && if rows[0].name == culprit then rows[0].err else CulpritErred(rows[1..], culprit)
  }

  function Used(p: Pool): nat {
    |p.deploys| + p.others + p.urgent
  }

  predicate Room(c: Config, p: Pool, urgent: bool) {
    match c.capacity
    case Unlimited => true
    case Limited(limit, reserve) => Used(p) < SlotPool.LimitFor(limit, reserve, urgent)
  }

  // ---------------------------------------------------------------- steps

  predicate ValidRun(s: State, r: nat, stage: Stage) {
    r < |s.runs| && s.runs[r].stage == stage
  }

  ghost predicate Enabled(c: Config, s: State, step: Step) {
    match step
    case Push(ref, _) => HumanOwned(c, ref)
    case BeginPass(refs) => s.pass.Between? && Mirrors(s.log, refs)
    case Promote(_) => s.pass.Promoting? && s.pass.k < |c.envs|
    case StepLaneFirst => s.pass.Stepping? && s.pass.k < |c.envs|
    case StepLaneSecond(_) => s.pass.Deciding? && s.pass.k < |c.envs|
    case EndPass => s.pass.Promoting? && s.pass.k >= |c.envs|
    case Retry(_) => true
    case CancelCurrent(_) => true
    case Drain => true
    case Shutdown => true
    case Restart => true
    case PrepareFails(r, outcome) => ValidRun(s, r, Preparing) && (outcome == Rejected || outcome == Errored)
    case GraphStarts(r, nodes) => ValidRun(s, r, Preparing) && nodes != [] && DeploySpec.Schedulable(nodes)
    case Node(r, step) =>
      && r < |s.runs| && s.runs[r].graph.Some? && step != GS.Cancel
      && GS.Enabled(s.runs[r].graph.value.g, s.runs[r].graph.value.s, step)
      && (step.GetSlot? ==> Room(c, s.pool, false))
    case Verdict(r) => ValidRun(s, r, Running) && s.runs[r].graph.Some? && s.runs[r].graph.value.s.pc.Returned?
    case Publish(r, _) => ValidRun(s, r, Publishing)
    case Finish(r) => r < |s.runs| && s.runs[r].stage.Concluded?
    case OtherAcquires(urgent) => Room(c, s.pool, urgent)
    case OtherReleases(urgent) => if urgent then s.pool.urgent > 0 else s.pool.others > 0
  }

  function Apply(c: Config, s: State, step: Step): State
    requires Enabled(c, s, step)
  {
    match step
    case Push(ref, sha) => s.(log := s.log + [Write(ref, sha, Human)])
    case BeginPass(refs) => s.(pass := Promoting(0, refs))
    case Promote(fate) => ApplyPromote(c, s, fate)
    case StepLaneFirst => ApplyStepLaneFirst(c, s)
    case StepLaneSecond(allow) => ApplyStepLaneSecond(c, s, allow)
    case EndPass => s.(pass := Between)
    case Retry(env) => s.(lanes := s.lanes[env := LaneOf(s, env).(parked := None)])
    case CancelCurrent(env) =>
      var l := LaneOf(s, env);
      if l.running.Some? && l.running.value < |s.runs|
      then s.(lanes := s.lanes[env := l.(cancelled := true)],
              runs := s.runs[l.running.value := Kill(s.runs[l.running.value])])
      else s
    case Drain => s.(draining := true)
    case Shutdown => s.(shutdown := true, runs := seq(|s.runs|, i requires 0 <= i < |s.runs| => Kill(s.runs[i])))
    case Restart =>
      State(s.log, map[], false, false, Between, seq(|s.runs|, i requires 0 <= i < |s.runs| => Abort(s.runs[i])), NO_SLOTS_OUT)
    case PrepareFails(r, outcome) => SetStage(s, r, Concluded(outcome))
    case GraphStarts(r, nodes) =>
      var g := GS.Graph(nodes, MaxParallel(c, s.runs[r].env));
      s.(runs := s.runs[r := s.runs[r].(stage := Running, graph := Some(StartedGraph(g, s.runs[r].ctxDead)))])
    case Node(r, step) => ApplyNode(s, r, step)
    case Verdict(r) => SetStage(s, r, AfterRun(s.runs[r]))
    case Publish(r, choice) => ApplyPublish(s, r, choice)
    case Finish(r) => ApplyFinish(c, s, r)
    case OtherAcquires(urgent) =>
      s.(pool := if urgent then s.pool.(urgent := s.pool.urgent + 1) else s.pool.(others := s.pool.others + 1))
    case OtherReleases(urgent) =>
      s.(pool := if urgent then s.pool.(urgent := s.pool.urgent - 1) else s.pool.(others := s.pool.others - 1))
  }

  function MaxParallel(c: Config, env: string): int {
    MaxParallelIn(c.envs, env)
  }

  function MaxParallelIn(envs: seq<Environment>, env: string): int {
    if envs == [] then 1
    else if envs[0].name == env then envs[0].maxParallel
    else MaxParallelIn(envs[1..], env)
  }

  function SetStage(s: State, r: nat, stage: Stage): State
    requires r < |s.runs|
  {
    s.(runs := s.runs[r := s.runs[r].(stage := stage)])
  }

  /** A tracked environment's desired ref is set to its source's tip, compare-and-swap
      against the value this pass read. Without an answer the pass goes on with the value
      it had. */
  function ApplyPromote(c: Config, s: State, fate: Fate): State
    requires s.pass.Promoting? && s.pass.k < |c.envs|
  {
    var env := c.envs[s.pass.k];
    var refs := s.pass.refs;
    var desired, observed, tip := Lookup(refs, Desired(env.name)), Lookup(refs, Observed(env.name)), SourceTip(env, refs);
    if env.mode == Track && tip != "" && desired != tip && fate != Lost && Current(s.log, Desired(env.name)) == desired
    then s.(log := s.log + [Write(Desired(env.name), tip, Promotion(desired))],
            pass := Stepping(s.pass.k, refs, if fate == Answered then tip else desired, observed))
    else s.(pass := Stepping(s.pass.k, refs, desired, observed))
  }

  /** The lane's run is to be signalled: its environment asks for it, another revision is
      wanted, and it has not been signalled yet. */
  predicate Signals(env: Environment, s: State, l: Lane, desired: Sha) {
    && l.running.Some? && l.running.value < |s.runs|
    && env.onMove == CancelRun && desired != "" && desired != s.runs[l.running.value].sha && !l.cancelled
  }

  /** The locked half before the admission policy is asked: a busy lane's run is signalled
      or left alone, and for an idle one the policy is asked if there is something to run. */
  function ApplyStepLaneFirst(c: Config, s: State): State
    requires s.pass.Stepping? && s.pass.k < |c.envs|
  {
    var env, p := c.envs[s.pass.k], s.pass;
    var l := Unpark(LaneOf(s, env.name), p.desired);
    var signal := Signals(env, s, l, p.desired);
    var busy := l.running.Some? && l.running.value < |s.runs|;
    s.(lanes := s.lanes[env.name := if signal then l.(cancelled := true) else l],
       runs := if signal then s.runs[l.running.value := Kill(s.runs[l.running.value])] else s.runs,
       pass := if !busy && CanStart(c, s, l, p.desired, p.observed) then Deciding(p.k, p.refs, p.desired, p.observed)
               else Promoting(p.k + 1, p.refs))
  }

  /** The locked half after the policy answered: admission is tested again. */
  function ApplyStepLaneSecond(c: Config, s: State, allow: bool): State
    requires s.pass.Deciding? && s.pass.k < |c.envs|
  {
    var env := c.envs[s.pass.k];
    var p := s.pass;
    var l := LaneOf(s, env.name);
    var next := Promoting(p.k + 1, p.refs);
    if allow && CanStart(c, s, l, p.desired, p.observed)
    then s.(lanes := s.lanes[env.name := l.(running := Some(|s.runs|), cancelled := false)],
            runs := s.runs + [GraphRun(env.name, p.desired, p.observed, s.shutdown, Preparing, None)],
            pass := next)
    else s.(pass := next)
  }

  function ApplyNode(s: State, r: nat, step: GS.Step): State
    requires r < |s.runs| && s.runs[r].graph.Some?
    requires GS.Enabled(s.runs[r].graph.value.g, s.runs[r].graph.value.s, step)
  {
    var live := s.runs[r].graph.value;
    s.(runs := s.runs[r := s.runs[r].(graph := Some(live.(s := GS.Apply(live.g, live.s, step))))],
       pool := match step
               case GetSlot(i) => s.pool.(deploys := s.pool.deploys + {(r, i)})
               case ReleaseSlot(i) => s.pool.(deploys := s.pool.deploys - {(r, i)})
               case _ => s.pool)
  }

  /** The observed ref advances by compare-and-swap against the value the run started from.
      Only an answered push lands the run. */
  function ApplyPublish(s: State, r: nat, choice: PublishChoice): State
    requires r < |s.runs|
  {
    var run := s.runs[r];
    match choice
    case Refused => SetStage(s, r, Concluded(Rejected))
    case Pushed(fate) =>
      if fate != Lost && Current(s.log, Observed(run.env)) == run.prev
      then SetStage(s, r, Concluded(if fate == Answered then Landed else Errored))
             .(log := s.log + [Write(Observed(run.env), run.sha, ByRun(r))])
      else SetStage(s, r, Concluded(Errored))
  }

  function ApplyFinish(c: Config, s: State, r: nat): State
    requires r < |s.runs| && s.runs[r].stage.Concluded?
  {
    var run := s.runs[r];
    var l := ReleaseLane(c, s.draining, LaneOf(s, run.env), run.sha, run.stage.outcome);
    SetStage(s, r, Released(run.stage.outcome)).(lanes := s.lanes[run.env := l])
  }

  ghost predicate Follows(c: Config, states: seq<State>, steps: seq<Step>) {
    && |states| == |steps| + 1
    && forall k :: 0 <= k < |steps| ==> Enabled(c, states[k], steps[k]) && states[k + 1] == Apply(c, states[k], steps[k])
  }

  /** A run of the whole system, across any number of daemons' lives, from an empty remote. */
  ghost predicate IsRun(c: Config, states: seq<State>, steps: seq<Step>) {
    Follows(c, states, steps) && states[0] == Init()
  }
}
