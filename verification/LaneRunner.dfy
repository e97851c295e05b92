/** The tracker as the program it is: fields behind a mutex, a reconcile pass that loops
    over the environments, lane goroutines, operator entry points. Whatever happens in
    whatever order is a run of the tracker's transition system, so the theorems about
    runs are about this program. */
module LaneRunner {
  import opened Options
  import opened Environments
  import opened Tracker
  import opened LaneSafety
  import opened LaneMemory
  import Promotion
  import Attempts
  import DeploySpec
  import GS = GraphScheduler

  predicate ProfilesKnown(profiles: set<string>, nodes: seq<DeploySpec.Node>) {
    forall i :: 0 <= i < |nodes| ==> nodes[i].executor == "" || nodes[i].executor in profiles
  }

  method CheckProfiles(profiles: set<string>, nodes: seq<DeploySpec.Node>) returns (ok: bool)
    ensures ok <==> ProfilesKnown(profiles, nodes)
  {
    for k := 0 to |nodes|
      invariant forall i :: 0 <= i < k ==> nodes[i].executor == "" || nodes[i].executor in profiles
    {
      if nodes[k].executor != "" && nodes[k].executor !in profiles { return false; }
    }
    return true;
  }

  /** The environment's selection, if the spec declares all it reaches. */
  method Resolve(spec: seq<DeploySpec.Node>, selection: seq<string>) returns (nodes: Option<seq<DeploySpec.Node>>)
    ensures forall all :: DeploySpec.IsSelection(spec, selection, all) <==> nodes == Some(all)
  {
    var selected := DeploySpec.SelectDeployNodes(spec, selection);
    match selected
    case Selected(found) =>
      forall all | DeploySpec.IsSelection(spec, selection, all) ensures all == found {
        DeploySpec.SelectionIsUnique(spec, selection, all, found);
      }
      return Some(found);
    case NoSuchNode(name) =>
      forall all ensures !DeploySpec.IsSelection(spec, selection, all) {
        if DeploySpec.IsSelection(spec, selection, all) { DeploySpec.SelectionIsDeclared(spec, selection, all, name); }
      }
      return None;
  }

  /** What an environment may run of a revision. */
  ghost predicate Deployable(spec: seq<DeploySpec.Node>, selection: seq<string>, profiles: set<string>, nodes: seq<DeploySpec.Node>) {
    && DeploySpec.Accepted(spec) && DeploySpec.IsSelection(spec, selection, nodes)
    && nodes != [] && ProfilesKnown(profiles, nodes)
  }

  /** Reads a revision's deploy graph and resolves an environment's selection against it:
      a graph comes back exactly if the spec is accepted, the selection resolves to at
      least one node, and every executor it names is known; the scheduler can finish it. */
  method DeployGraph(spec: seq<DeploySpec.Node>, selection: seq<string>, profiles: set<string>)
    returns (nodes: Option<seq<DeploySpec.Node>>)
    ensures forall all :: Deployable(spec, selection, profiles, all) <==> nodes == Some(all)
    ensures nodes.Some? ==> DeploySpec.Schedulable(nodes.value)
  {
    var invalid := DeploySpec.ValidateDeploys(spec);
    if invalid.Some? { return None; }
    nodes := Resolve(spec, selection);
    if nodes.None? { return; }
    var known := CheckProfiles(profiles, nodes.value);
    if nodes.value == [] || !known {
      ghost var resolved := nodes.value;
      assert forall all :: DeploySpec.IsSelection(spec, selection, all) <==> all == resolved;
      return None;
    }
    assert DeploySpec.IsSelection(spec, selection, nodes.value);
    DeploySpec.AcceptedSelectionIsSchedulable(spec, selection, nodes.value);
  }

  /** What the reconcile goroutine may find when it looks again: writes that are not its
      own, and the same runs under the same numbers. */
  ghost predicate OnlyOthers(log: seq<Write>, more: seq<Write>, runs: seq<GraphRun>, now: seq<GraphRun>) {
    && log <= more && (forall j :: |log| <= j < |more| ==> !more[j].writer.Promotion?)
    && |now| == |runs| && forall i :: 0 <= i < |runs| ==> now[i].env == runs[i].env && now[i].sha == runs[i].sha
  }

  lemma StageIsOthers(log: seq<Write>, runs: seq<GraphRun>, r: nat, stage: Stage)
    requires r < |runs|
    ensures OnlyOthers(log, log, runs, runs[r := runs[r].(stage := stage)])
  {
  }

  lemma KillIsOthers(log: seq<Write>, runs: seq<GraphRun>, r: nat)
    requires r < |runs|
    ensures OnlyOthers(log, log, runs, runs[r := Kill(runs[r])])
  {
  }

  /** A promotion the pass was entitled to: a tracked environment's desired ref, from the
      value the mirror shows there to the tip it shows at the source, be that a branch or
      another environment's observed ref. */
  ghost predicate FollowsSource(envs: seq<Environment>, refs: map<Ref, Sha>, w: Write) {
    exists k :: 0 <= k < |envs| && envs[k].mode == Track && w.ref == Desired(envs[k].name) && w.sha != ""
                && Promotion.TipAtSource(envs[k], refs, w.sha)
                && w.writer == Tracker.Promotion(if w.ref in refs then refs[w.ref] else "")
  }

  /** Every promotion from position n on was entitled. */
  ghost predicate PromotionsFollow(envs: seq<Environment>, refs: map<Ref, Sha>, log: seq<Write>, n: nat) {
    forall j :: n <= j < |log| && log[j].writer.Promotion? ==> FollowsSource(envs, refs, log[j])
  }

  lemma PromotionFollows(c: Config, s: State, t: State, fate: Fate, n: nat)
    requires s.pass.Promoting? && s.pass.k < |c.envs| && PromotionsFollow(c.envs, s.pass.refs, s.log, n)
    requires forall tip :: Promotion.TipAtSource(c.envs[s.pass.k], s.pass.refs, tip) ==>
               Promotion.PromotionHappened(c, s, t, fate, tip)
    ensures s.log <= t.log && PromotionsFollow(c.envs, s.pass.refs, t.log, n)
  {
    Promotion.SourceTipIsTip(c.envs[s.pass.k], s.pass.refs);
    assert Promotion.PromotionHappened(c, s, t, fate, SourceTip(c.envs[s.pass.k], s.pass.refs));
  }

  ghost predicate AmongFirst(envs: seq<Environment>, k: nat, env: string)
    requires k <= |envs|
  {
    exists e :: 0 <= e < k && env == envs[e].name
  }

  /** From position n on there is at most one run per environment, for the first k
      environments only. */
  ghost predicate OneStartEach(envs: seq<Environment>, k: nat, runs: seq<GraphRun>, n: nat)
    requires k <= |envs|
  {
    && (forall i :: n <= i < |runs| ==> AmongFirst(envs, k, runs[i].env))
    && (forall i, j :: n <= i < j < |runs| ==> runs[i].env != runs[j].env)
  }

  lemma OthersKeepStarts(envs: seq<Environment>, k: nat, runs: seq<GraphRun>, now: seq<GraphRun>, n: nat)
    requires k <= |envs| && OneStartEach(envs, k, runs, n)
    requires |now| == |runs| && forall i :: 0 <= i < |runs| ==> now[i].env == runs[i].env
    ensures OneStartEach(envs, k, now, n)
  {
    forall i | n <= i < |now| ensures AmongFirst(envs, k, now[i].env) {
      assert AmongFirst(envs, k, runs[i].env);
    }
  }

  /** Environment k's own start comes after those of the environments before it. */
  lemma StartKeepsOneEach(envs: seq<Environment>, k: nat, runs: seq<GraphRun>, run: GraphRun, n: nat)
    requires k < |envs| && DistinctEnvs(envs) && OneStartEach(envs, k, runs, n) && run.env == envs[k].name && n <= |runs|
    ensures OneStartEach(envs, k + 1, runs, n) && OneStartEach(envs, k + 1, runs + [run], n)
  {
    forall i | n <= i < |runs| ensures runs[i].env != run.env && AmongFirst(envs, k + 1, runs[i].env) {
      assert AmongFirst(envs, k, runs[i].env);
    }
    assert AmongFirst(envs, k + 1, run.env);
  }

  class Daemon {
    const c: Config

    /** Each environment's `nodes` selection. */
    const selections: map<string, seq<string>>

    /** The executor profiles the operator has defined. */
    const profiles: set<string>

    // The remote, and what the mutex guards.
    var log: seq<Write>
    var lanes: map<string, Lane>
    var draining: bool
    var shutdown: bool
    var runs: seq<GraphRun>
    var pool: Pool

    // Where the reconcile goroutine stands, and the run taken so far.
    ghost var pass: Pass
    ghost var states: seq<State>
    ghost var steps: seq<Step>

    constructor (c: Config, selections: map<string, seq<string>>, profiles: set<string>)
      requires Sane(c)
      ensures this.c == c && Valid() && pass == Between
    {
      this.c, this.selections, this.profiles := c, selections, profiles;
      log, lanes, draining, shutdown, runs, pool := [], map[], false, false, [], NO_SLOTS_OUT;
      pass := Between;
      states, steps := [Init()], [];
    }

    ghost function Now(): State
      reads this
    {
      State(log, lanes, draining, shutdown, pass, runs, pool)
    }

    ghost predicate Valid()
      reads this
    {
      Sane(c) && IsRun(c, states, steps) && states[|steps|] == Now()
    }

    /** Append the step just taken to the recorded run. */
    ghost method Log(step: Step)
      requires Sane(c) && IsRun(c, states, steps)
      requires Enabled(c, states[|steps|], step) && Now() == Apply(c, states[|steps|], step)
      modifies this`states, this`steps
      ensures Valid() && steps == old(steps) + [step] && states == old(states) + [Now()]
    {
      states, steps := states + [Now()], steps + [step];
    }

    function LaneFor(env: string): Lane
      reads this
    {
      if env in lanes then lanes[env] else IDLE_LANE
    }

    // -------------------------------------------------------------- what holds at any time

    /** No two graphs of one environment execute at once, no graph exceeds its environment's
        cap, and together they leave the pool's reserve alone. */
    lemma NeverOverlaps(r: nat, q: nat)
      requires Valid() && r < |runs| && q < |runs|
      ensures r != q && runs[r].env == runs[q].env ==> Executing(runs[r]) == {} || Executing(runs[q]) == {}
      ensures runs[r].graph.Some? ==>
                forall i :: 0 <= i < |c.envs| && c.envs[i].name == runs[r].env ==>
                  |GS.InFlight(runs[r].graph.value.s.phase)| <= AtLeastOne(c.envs[i].maxParallel)
      ensures Configured(c, runs[r].env)
      ensures c.capacity.Limited? ==> |AllExecuting(Now())| <= c.capacity.limit - c.capacity.reserve
    {
      NoOverlap(c, states, steps, |steps|, r, q);
    }

    /** Whatever stands on an observed ref was deployed green. */
    lemma ObservedIsGreen(j: nat)
      requires Valid() && j < |log| && log[j].ref.Observed?
      ensures Promotion.DeployedGreen(Now(), j, log[j].ref.env, log[j].sha)
    {
      Promotion.ObservedMeansGreen(c, states, steps, j);
    }

    /** Since step lo no more than two runs of a steadily desired revision were started. */
    lemma AttemptsAreBounded(env: string, sha: Sha, lo: nat)
      requires Valid() && lo <= |steps|
      requires forall k :: lo <= k < |steps| ==> Attempts.Steady(c, states[k], steps[k], env, sha)
      ensures |Attempts.RunsAt(runs, |states[lo].runs|, env, sha)| <= Attempts.MostStarts(c)
    {
      Attempts.AttemptsOnRecord(c, states, steps, env, sha, lo, |steps|);
    }

    lemma RunningLane(env: string)
      requires Valid()
      ensures LaneFor(env).running.Some? ==> LaneFor(env).running.value < |runs|
    {
      EveryRunKeepsInv(c, states, steps, |steps|);
      assert LanePointsAtRun(Now(), env);
    }

    // -------------------------------------------------------------- operator

    method Retry(env: string) returns (ok: bool)
      requires Valid()
      modifies this`lanes, this`states, this`steps
      ensures Valid()
      ensures ok <==> old(LaneFor(env)).parked.Some?
      ensures forall e :: LaneFor(e) == if e == env then old(LaneFor(e)).(parked := None) else old(LaneFor(e))
    {
      if env !in lanes || lanes[env].parked.None? { return false; }
      lanes := lanes[env := lanes[env].(parked := None)];
      Log(Step.Retry(env));
      return true;
    }

    method CancelCurrent(env: string) returns (ok: bool)
      requires Valid()
      modifies this`lanes, this`runs, this`states, this`steps
      ensures Valid()
      ensures ok <==> old(LaneFor(env)).running.Some?
      ensures !ok ==> lanes == old(lanes) && runs == old(runs)
      ensures OnlyOthers(log, log, old(runs), runs)
      ensures ok ==>
                var r := old(LaneFor(env)).running.value;
                && r < |old(runs)| == |runs| && runs == old(runs)[r := runs[r]] && runs[r].ctxDead
                && (runs[r].graph.Some? ==> runs[r].graph.value.s.cancelled || runs[r].graph.value.s.pc.Returned?)
                && forall e :: LaneFor(e) == if e == env then old(LaneFor(e)).(cancelled := true) else old(LaneFor(e))
    {
      RunningLane(env);
      var l := LaneFor(env);
      if l.running.None? { return false; }
      KillIsOthers(log, runs, l.running.value);
      lanes := lanes[env := l.(cancelled := true)];
      runs := runs[l.running.value := Kill(runs[l.running.value])];
      Log(Step.CancelCurrent(env));
      EveryRunKeepsInv(c, states, steps, |steps|);
      assert RunOk(runs[l.running.value]);
      return true;
    }

    method Drain()
      requires Valid()
      modifies this`draining, this`states, this`steps
      ensures Valid() && draining && steps == old(steps) + [Step.Drain]
    {
      draining := true;
      Log(Step.Drain);
    }

    /** The daemon's context ends, and with it every run's. */
    method Stop()
      requires Valid()
      modifies this`shutdown, this`runs, this`states, this`steps
      ensures Valid() && shutdown && steps == old(steps) + [Step.Shutdown]
      ensures |runs| == |old(runs)| && forall i :: 0 <= i < |runs| ==> runs[i] == Kill(old(runs)[i])
    {
      var was := runs;
      shutdown := true;
      runs := seq(|was|, i requires 0 <= i < |was| => Kill(was[i]));
      Log(Step.Shutdown);
    }

    // -------------------------------------------------------------- lane goroutines

    function SelectionOf(env: string): seq<string> {
      if env in selections then selections[env] else []
    }

    /** Everything a run does before its graph starts, any of which may end it: pinning and
        exporting the revision fail as errors, while a revision that declares nothing to
        deploy here, or that the policy forbids, is rejected. Otherwise exactly what it
        declares for this environment starts, under the environment's cap. */
    method Prepare(r: nat, pinned: bool, spec: seq<DeploySpec.Node>, permitted: bool, exported: bool)
      requires Valid() && r < |runs| && runs[r].stage == Preparing
      modifies this`runs, this`states, this`steps
      ensures Valid() && OnlyOthers(log, log, old(runs), runs)
      ensures !pinned ==> runs[r].stage == Concluded(Errored)
      ensures pinned && (!permitted || forall all :: !Deployable(spec, SelectionOf(runs[r].env), profiles, all)) ==>
                runs[r].stage == Concluded(Rejected)
      ensures forall all :: pinned && permitted && Deployable(spec, SelectionOf(runs[r].env), profiles, all) ==>
                if !exported then runs[r].stage == Concluded(Errored)
                else runs[r].stage == Running && runs[r].graph.Some? && runs[r].graph.value.g.nodes == all
    {
      if !pinned {
        ConcludeRun(r, Errored);
        return;
      }
      var nodes := DeployGraph(spec, SelectionOf(runs[r].env), profiles);
      if nodes.None? || !permitted {
        ConcludeRun(r, Rejected);
      } else if !exported {
        ConcludeRun(r, Errored);
      } else {
        BeginGraph(r, nodes.value);
      }
    }

    method BeginGraph(r: nat, nodes: seq<DeploySpec.Node>)
      requires Valid() && r < |runs| && runs[r].stage == Preparing && nodes != [] && DeploySpec.Schedulable(nodes)
      modifies this`runs, this`states, this`steps
      ensures Valid() && steps == old(steps) + [GraphStarts(r, nodes)] && OnlyOthers(log, log, old(runs), runs)
      ensures runs[r].stage == Running && runs[r].graph.Some? && runs[r].graph.value.g.nodes == nodes
    {
      var g := GS.Graph(nodes, MaxParallel(c, runs[r].env));
      runs := runs[r := runs[r].(stage := Running, graph := Some(StartedGraph(g, runs[r].ctxDead)))];
      Log(GraphStarts(r, nodes));
    }

    method ConcludeRun(r: nat, outcome: Outcome)
      requires Valid() && r < |runs| && runs[r].stage == Preparing && (outcome == Rejected || outcome == Errored)
      modifies this`runs, this`states, this`steps
      ensures Valid() && steps == old(steps) + [PrepareFails(r, outcome)]
      ensures OnlyOthers(log, log, old(runs), runs) && runs[r].stage == Concluded(outcome)
    {
      StageIsOthers(log, runs, r, Concluded(outcome));
      runs := runs[r := runs[r].(stage := Concluded(outcome))];
      Log(PrepareFails(r, outcome));
    }

    /** One step inside Scheduler.Run or one of its node goroutines, as the scheduler's own
        transition system has it; taking a slot needs room in the shared pool. */
    method GraphStep(r: nat, step: GS.Step)
      requires Valid() && r < |runs| && runs[r].graph.Some? && step != GS.Cancel
      requires GS.Enabled(runs[r].graph.value.g, runs[r].graph.value.s, step)
      requires step.GetSlot? ==> Room(c, pool, false)
      modifies this`runs, this`pool, this`states, this`steps
      ensures Valid() && steps == old(steps) + [Node(r, step)]
      ensures OnlyOthers(log, log, old(runs), runs)
    {
      var live := runs[r].graph.value;
      runs := runs[r := runs[r].(graph := Some(live.(s := GS.Apply(live.g, live.s, step))))];
      match step {
        case GetSlot(i) => pool := pool.(deploys := pool.deploys + {(r, i)});
        case ReleaseSlot(i) => pool := pool.(deploys := pool.deploys - {(r, i)});
        case _ =>
      }
      Log(Node(r, step));
    }

    lemma VerdictFacts(r: nat)
      requires Valid() && r < |runs| && runs[r].graph.Some? && runs[r].graph.value.s.pc.Returned?
      ensures OutcomeOfVerdict(runs[r], AfterRun(runs[r]))
    {
      EveryRunKeepsInv(c, states, steps, |steps|);
      TerminalMapping(runs[r]);
    }

    /** What the graph's verdict means for the run. */
    method MapVerdict(r: nat)
      requires Valid() && r < |runs| && runs[r].stage == Running
      requires runs[r].graph.Some? && runs[r].graph.value.s.pc.Returned?
      modifies this`runs, this`states, this`steps
      ensures Valid() && steps == old(steps) + [Verdict(r)]
      ensures OnlyOthers(log, log, old(runs), runs)
      ensures OutcomeOfVerdict(old(runs)[r], runs[r].stage)
    {
      VerdictFacts(r);
      var run := runs[r];
      var pc := run.graph.value.s.pc;
      var to: Stage;
      if pc.err != GS.NoError && run.ctxDead {
        to := Concluded(Skipped);
      } else if pc.err != GS.NoError {
        to := Concluded(Errored);
      } else if pc.culprit != "" {
        to := if CulpritErred(pc.rows, pc.culprit) then Concluded(Errored) else Concluded(Rejected);
      } else {
        to := Publishing;
      }
      StageIsOthers(log, runs, r, to);
      runs := runs[r := run.(stage := to)];
      Log(Verdict(r));
    }

    /** Policy, then compare-and-swap of the observed ref; the push may be lost, or taken
        without the answer getting back. */
    method PublishObserved(r: nat)
      requires Valid() && r < |runs| && runs[r].stage == Publishing
      modifies this`log, this`runs, this`states, this`steps
      ensures Valid()
      ensures exists choice :: steps == old(steps) + [Publish(r, choice)]
      ensures OnlyOthers(old(log), log, old(runs), runs)
      ensures log != old(log) ==>
                && log == old(log) + [Write(Observed(old(runs[r]).env), old(runs[r]).sha, ByRun(r))]
                && old(Current(log, Observed(runs[r].env))) == old(runs[r]).prev
      ensures runs[r].stage == Concluded(Landed) ==> log != old(log)
    {
      var permitted: bool := *;
      if permitted {
        PushObserved(r);
      } else {
        StageIsOthers(log, runs, r, Concluded(Rejected));
        runs := runs[r := runs[r].(stage := Concluded(Rejected))];
        Log(Publish(r, Refused));
      }
    }

    method PushObserved(r: nat)
      requires Valid() && r < |runs| && runs[r].stage == Publishing
      modifies this`log, this`runs, this`states, this`steps
      ensures Valid() && exists fate :: steps == old(steps) + [Publish(r, Pushed(fate))]
      ensures OnlyOthers(old(log), log, old(runs), runs)
      ensures log != old(log) ==>
                && log == old(log) + [Write(Observed(old(runs[r]).env), old(runs[r]).sha, ByRun(r))]
                && old(Current(log, Observed(runs[r].env))) == old(runs[r]).prev
      ensures runs[r].stage == Concluded(Landed) ==> log != old(log)
    {
      var run, outcome := runs[r], Errored;
      var fate: Fate := *;
      if fate != Lost && Current(log, Observed(run.env)) == run.prev {
        log := log + [Write(Observed(run.env), run.sha, ByRun(r))];
        if fate == Answered { outcome := Landed; }
      }
      StageIsOthers(log, runs, r, Concluded(outcome));
      runs := runs[r := run.(stage := Concluded(outcome))];
      Log(Publish(r, Pushed(fate)));
    }

    /** Freeing the lane and applying the outcome to its memory. */
    method FinishGraph(r: nat)
      requires Valid() && r < |runs| && runs[r].stage.Concluded?
      modifies this`lanes, this`runs, this`states, this`steps
      ensures Valid() && steps == old(steps) + [Finish(r)]
      ensures OnlyOthers(log, log, old(runs), runs)
      ensures var run := old(runs[r]);
              LaneAfter(c.autoRetry, draining, old(LaneFor(runs[r].env)), LaneFor(run.env), run.sha, run.stage.outcome)
      ensures forall e :: e != old(runs[r]).env ==> LaneFor(e) == old(LaneFor(e))
    {
      var run := runs[r];
      var outcome := run.stage.outcome;
      var l := LaneFor(run.env);
      l := l.(running := None, cancelled := false);
      if outcome == Landed {
        l := l.(synced := run.sha, parked := None);
      } else if outcome != Skipped {
        l := l.(parked := Some(run.sha));
        if outcome == Errored && c.autoRetry && !draining && l.autoRetried != run.sha {
          l := l.(autoRetried := run.sha, parked := None);
        }
      }
      lanes := lanes[run.env := l];
      StageIsOthers(log, runs, r, Released(outcome));
      runs := runs[r := run.(stage := Released(outcome))];
      Log(Finish(r));
    }

    // -------------------------------------------------------------- everyone else

    /** Anything but the reconcile pass itself: pushes, operators, lane goroutines and
        their nodes, other tenants of the pool. */
    method World()
      requires Valid()
      modifies this`log, this`lanes, this`draining, this`shutdown, this`runs, this`pool, this`states, this`steps
      ensures Valid() && OnlyOthers(old(log), log, old(runs), runs)
    {
      var rounds: nat := *;
      while rounds > 0
        invariant Valid() && OnlyOthers(old(log), log, old(runs), runs)
      {
        var lane: bool, r: nat := *, *;
        if lane && r < |runs| {
          RunActs(r);
        } else if !lane {
          OutsideActs();
        }
        rounds := rounds - 1;
      }
    }

    method RunActs(r: nat)
      requires Valid() && r < |runs|
      modifies this`log, this`lanes, this`runs, this`pool, this`states, this`steps
      ensures Valid() && OnlyOthers(old(log), log, old(runs), runs)
    {
      var step: GS.Step := *;
      var run := runs[r];
      if run.graph.Some? && step != GS.Cancel && GS.Enabled(run.graph.value.g, run.graph.value.s, step)
         && (step.GetSlot? ==> Room(c, pool, false))
      {
        GraphStep(r, step);
      } else {
        match run.stage {
          case Preparing =>
            var pinned: bool, spec: seq<DeploySpec.Node>, permitted: bool, exported: bool := *, *, *, *;
            Prepare(r, pinned, spec, permitted, exported);
          case Running => if run.graph.Some? && run.graph.value.s.pc.Returned? { MapVerdict(r); }
          case Publishing => PublishObserved(r);
          case Concluded(_) => FinishGraph(r);
          case Released(_) =>
          case Aborted =>
        }
      }
    }

    method OutsideActs()
      requires Valid()
      modifies this`log, this`lanes, this`draining, this`shutdown, this`runs, this`pool, this`states, this`steps
      ensures Valid() && OnlyOthers(old(log), log, old(runs), runs)
    {
      var ref: Ref, sha: Sha, env: string, what: nat, urgent: bool := *, *, *, *, *;
      if what == 0 {
        if HumanOwned(c, ref) {
          log := log + [Write(ref, sha, Human)];
          Log(Push(ref, sha));
        }
      } else if what == 1 {
        var ok := Retry(env);
      } else if what == 2 {
        var ok := CancelCurrent(env);
      } else if what == 3 {
        Drain();
      } else if what == 4 {
        Stop();
      } else {
        OtherTenant(urgent);
      }
    }

    method OtherTenant(urgent: bool)
      requires Valid()
      modifies this`pool, this`states, this`steps
      ensures Valid()
    {
      var acquire: bool := *;
      if acquire && Room(c, pool, urgent) {
        pool := if urgent then pool.(urgent := pool.urgent + 1) else pool.(others := pool.others + 1);
        Log(OtherAcquires(urgent));
      } else if !acquire && (if urgent then pool.urgent > 0 else pool.others > 0) {
        pool := if urgent then pool.(urgent := pool.urgent - 1) else pool.(others := pool.others - 1);
        Log(OtherReleases(urgent));
      }
    }

    // -------------------------------------------------------------- the reconcile pass

    /** One full pass over the environments against one snapshot of the mirror, if it could
        be listed. Whatever the others do meanwhile: the pass promotes only tracked
        environments, and only to the tip of their source; it starts at most one run per
        environment; and what reached an observed ref during it was deployed green. */
    method ReconcileOnce(listing: Option<map<Ref, Sha>>) returns (ok: bool)
      requires Valid() && pass == Between && (listing.Some? ==> Mirrors(log, listing.value))
      modifies this
      ensures Valid() && pass == Between && old(log) <= log
      ensures ok <==> listing.Some?
      ensures !ok ==> Now() == old(Now())
      ensures ok ==> PromotionsFollow(c.envs, listing.value, log, |old(log)|)
      ensures ok ==> OneStartEach(c.envs, |c.envs|, runs, |old(runs)|)
      ensures forall j :: |old(log)| <= j < |log| && log[j].ref.Observed? ==>
                Promotion.DeployedGreen(Now(), j, log[j].ref.env, log[j].sha)
    {
      if listing.None? { return false; }
      var refs := listing.value;
      pass := Promoting(0, refs);
      Log(BeginPass(refs));
      for k := 0 to |c.envs|
        invariant Valid() && pass == Promoting(k, refs) && old(log) <= log && |old(runs)| <= |runs|
        invariant PromotionsFollow(c.envs, refs, log, |old(log)|)
        invariant OneStartEach(c.envs, k, runs, |old(runs)|)
      {
        ReconcileLane(k, refs, |old(log)|, |old(runs)|);
      }
      pass := Between;
      Log(EndPass);
      forall j | |old(log)| <= j < |log| && log[j].ref.Observed?
        ensures Promotion.DeployedGreen(Now(), j, log[j].ref.env, log[j].sha)
      {
        ObservedIsGreen(j);
      }
      return true;
    }

    /** One environment: promote the source's tip, then step the lane. */
    method ReconcileLane(k: nat, refs: map<Ref, Sha>, ghost n: nat, ghost m: nat)
      requires Valid() && k < |c.envs| && pass == Promoting(k, refs) && n <= |log| && m <= |runs|
      requires PromotionsFollow(c.envs, refs, log, n) && OneStartEach(c.envs, k, runs, m)
      modifies this
      ensures Valid() && pass == Promoting(k + 1, refs) && old(log) <= log && |old(runs)| <= |runs|
      ensures PromotionsFollow(c.envs, refs, log, n) && OneStartEach(c.envs, k + 1, runs, m)
    {
      OthersAct(k, refs, n, m);
      ghost var was := Now();
      var desired, fate := PromoteTip(k, refs);
      PromotionFollows(c, was, Now(), fate, n);
      OthersAct(k, refs, n, m);
      StepLane(k, refs, desired, Lookup(refs, Observed(c.envs[k].name)), n, m);
    }

    /** The pass's whole dealing with one lane: unpark, cancel, or ask and start. */
    method StepLane(k: nat, refs: map<Ref, Sha>, desired: Sha, observed: Sha, ghost n: nat, ghost m: nat)
      requires Valid() && k < |c.envs| && pass == Stepping(k, refs, desired, observed) && n <= |log| && m <= |runs|
      requires PromotionsFollow(c.envs, refs, log, n) && OneStartEach(c.envs, k, runs, m)
      modifies this
      ensures Valid() && pass == Promoting(k + 1, refs) && old(log) <= log && |old(runs)| <= |runs|
      ensures PromotionsFollow(c.envs, refs, log, n) && OneStartEach(c.envs, k + 1, runs, m)
    {
      var ask := StepLaneUntilPolicy(k, refs, desired, observed);
      OthersKeepStarts(c.envs, k, old(runs), runs, m);
      OthersAct(k, refs, n, m);
      ghost var before := runs;
      ghost var mine := GraphRun(c.envs[k].name, desired, observed, shutdown, Preparing, None);
      StartKeepsOneEach(c.envs, k, before, mine, m);
      if ask { StartIfAllowed(k, refs, desired, observed); }
    }

    /** The pass's own bookkeeping survives whatever the others do. */
    method OthersAct(ghost k: nat, ghost refs: map<Ref, Sha>, ghost n: nat, ghost m: nat)
      requires Valid() && k <= |c.envs| && n <= |log| && m <= |runs|
      requires PromotionsFollow(c.envs, refs, log, n) && OneStartEach(c.envs, k, runs, m)
      modifies this`log, this`lanes, this`draining, this`shutdown, this`runs, this`pool, this`states, this`steps
      ensures Valid() && old(log) <= log && |runs| == |old(runs)|
      ensures PromotionsFollow(c.envs, refs, log, n) && OneStartEach(c.envs, k, runs, m)
    {
      World();
      OthersKeepStarts(c.envs, k, old(runs), runs, m);
    }

    method PromoteTip(k: nat, refs: map<Ref, Sha>) returns (desired: Sha, ghost fate: Fate)
      requires Valid() && k < |c.envs| && pass == Promoting(k, refs)
      modifies this`log, this`pass, this`states, this`steps
      ensures Valid() && pass == Stepping(k, refs, desired, Lookup(refs, Observed(c.envs[k].name)))
      ensures steps == old(steps) + [Promote(fate)]
      ensures forall tip :: Promotion.TipAtSource(c.envs[k], refs, tip) ==>
                Promotion.PromotionHappened(c, old(Now()), Now(), fate, tip)
    {
      var env := c.envs[k];
      desired := Lookup(refs, Desired(env.name));
      var tip := SourceTip(env, refs);
      var actual: Fate := *;
      fate := actual;
      if env.mode == Track && tip != "" && desired != tip && actual != Lost && Current(log, Desired(env.name)) == desired {
        log := log + [Write(Desired(env.name), tip, Tracker.Promotion(desired))];
        if actual == Answered { desired := tip; }
      }
      pass := Stepping(k, refs, desired, Lookup(refs, Observed(env.name)));
      Log(Promote(fate));
      forall at | Promotion.TipAtSource(env, refs, at)
        ensures Promotion.PromotionHappened(c, old(Now()), Now(), fate, at)
      {
        LastPromotion(old(Now()), fate, at);
      }
    }

    /** What the promotion just recorded did. */
    lemma LastPromotion(was: State, fate: Fate, tip: Sha)
      requires Valid() && |steps| > 0 && steps[|steps| - 1] == Promote(fate) && states[|steps| - 1] == was
      requires was.pass.Promoting? && was.pass.k < |c.envs| && Promotion.TipAtSource(c.envs[was.pass.k], was.pass.refs, tip)
      ensures Promotion.PromotionHappened(c, was, Now(), fate, tip)
    {
      Promotion.PromotionHappens(c, states, steps, |steps| - 1, tip);
    }

    /** The admission test: the daemon runs things and is not draining, there is drift to
        close, this process has not closed it already, and the lane is not parked. */
    method Admits(l: Lane, desired: Sha, observed: Sha) returns (r: bool)
      ensures r <==> CanStart(c, Now(), l, desired, observed)
    {
      if !c.runnable || draining { return false; }
      if desired == "" || desired == observed { return false; }
      if l.synced == desired { return false; }
      return l.parked.None?;
    }

    method StepLaneUntilPolicy(k: nat, refs: map<Ref, Sha>, desired: Sha, observed: Sha) returns (ask: bool)
      requires Valid() && k < |c.envs| && pass == Stepping(k, refs, desired, observed)
      modifies this`lanes, this`runs, this`pass, this`states, this`steps
      ensures Valid() && steps == old(steps) + [StepLaneFirst]
      ensures pass == if ask then Deciding(k, refs, desired, observed) else Promoting(k + 1, refs)
      ensures OnlyOthers(log, log, old(runs), runs)
    {
      var env := c.envs[k].name;
      RunningLane(env);
      var l := LaneFor(env);
      if l.parked.Some? && l.parked.value != desired { l := l.(parked := None); }
      if l.running.Some? {
        StepBusyLane(k, refs, l, desired, observed);
        return false;
      }
      ask := Admits(l, desired, observed);
      lanes := lanes[env := l];
      pass := if ask then Deciding(k, refs, desired, observed) else Promoting(k + 1, refs);
      Log(StepLaneFirst);
    }

    /** A lane with a run in flight: signal it once if the environment asks for that. */
    method StepBusyLane(k: nat, refs: map<Ref, Sha>, l: Lane, desired: Sha, observed: Sha)
      requires Valid() && k < |c.envs| && pass == Stepping(k, refs, desired, observed)
      requires l == Unpark(LaneFor(c.envs[k].name), desired) && l.running.Some? && l.running.value < |runs|
      modifies this`lanes, this`runs, this`pass, this`states, this`steps
      ensures Valid() && steps == old(steps) + [StepLaneFirst] && pass == Promoting(k + 1, refs)
      ensures OnlyOthers(log, log, old(runs), runs)
    {
      var env, r := c.envs[k], l.running.value;
      pass := Promoting(k + 1, refs);
      if env.onMove == CancelRun && desired != "" && desired != runs[r].sha && !l.cancelled {
        KillIsOthers(log, runs, r);
        runs := runs[r := Kill(runs[r])];
        lanes := lanes[env.name := l.(cancelled := true)];
      } else {
        lanes := lanes[env.name := l];
      }
      Log(StepLaneFirst);
    }

    method StartIfAllowed(k: nat, refs: map<Ref, Sha>, desired: Sha, observed: Sha)
      requires Valid() && k < |c.envs| && pass == Deciding(k, refs, desired, observed)
      modifies this`lanes, this`runs, this`pass, this`states, this`steps
      ensures Valid() && pass == Promoting(k + 1, refs)
      ensures exists allow :: steps == old(steps) + [StepLaneSecond(allow)]
      ensures runs == old(runs) || runs == old(runs) + [GraphRun(c.envs[k].name, desired, observed, shutdown, Preparing, None)]
    {
      var env := c.envs[k];
      var allow: bool := *;
      var l := LaneFor(env.name);
      var admit := Admits(l, desired, observed);
      if allow && admit {
        lanes := lanes[env.name := l.(running := Some(|runs|), cancelled := false)];
        runs := runs + [GraphRun(env.name, desired, observed, shutdown, Preparing, None)];
      }
      pass := Promoting(k + 1, refs);
      Log(StepLaneSecond(allow));
    }
  }
}
