/** What a lane remembers is what happened: how a graph run's verdict becomes an outcome,
    and how outcomes become parks, synced marks and spent retries. */
module LaneMemory {
  import opened Options
  import opened Tracker
  import opened LaneSafety
  import DeploySpec
  import GS = GraphScheduler
  import GV = GraphVerdict

  // ---------------------------------------------------------------- verdict to outcome

  lemma {:induction false} CulpritRow(rows: seq<GS.CheckResult>, culprit: string, c: nat)
    requires c < |rows| && rows[c].name == culprit
    requires forall i :: 0 <= i < c ==> rows[i].name != culprit
    ensures CulpritErred(rows, culprit) <==> rows[c].err
  {
    if c > 0 { CulpritRow(rows[1..], culprit, c - 1); }
  }

  /** The culprit is the first red node, and its row carries an Err (or does not). */
  ghost predicate RedWith(live: Live, err: bool)
    requires live.s.pc.Returned?
  {
    exists c: nat :: GV.RedVerdict(live.g, live.s, live.s.pc.rows, live.s.pc.culprit, c) && live.s.pc.rows[c].err == err
  }

  lemma ErrOfCulprit(g: GS.Graph, s: GS.State, rows: seq<GS.CheckResult>, culprit: string, c: nat)
    requires DeploySpec.DistinctNames(g.nodes) && GV.RedVerdict(g, s, rows, culprit, c)
    ensures CulpritErred(rows, culprit) <==> rows[c].err
  {
    forall i | 0 <= i < c ensures rows[i].name != culprit {
      assert GV.RedRow(g, s, rows[i], culprit, c, i) && GV.RedRow(g, s, rows[c], culprit, c, c);
    }
    CulpritRow(rows, culprit, c);
  }

  lemma RedOutcome(live: Live, first: nat)
    requires DeploySpec.DistinctNames(live.g.nodes) && live.s.pc.Returned?
    requires GV.RedVerdict(live.g, live.s, live.s.pc.rows, live.s.pc.culprit, first)
    ensures forall err :: RedWith(live, err) <==> err == CulpritErred(live.s.pc.rows, live.s.pc.culprit)
  {
    var rows, culprit := live.s.pc.rows, live.s.pc.culprit;
    ErrOfCulprit(live.g, live.s, rows, culprit, first);
    forall c: nat | GV.RedVerdict(live.g, live.s, rows, culprit, c)
      ensures CulpritErred(rows, culprit) <==> rows[c].err
    {
      ErrOfCulprit(live.g, live.s, rows, culprit, c);
    }
  }

  /** The terminal mapping is exact: a run goes on to publish only when every node is green,
      and exactly when Run returned no culprit and no error; it is skipped exactly when it
      was cancelled, its nodes green or not; and otherwise it is an error or a rejection
      according to whether its first red node failed without or with a verdict. */
  ghost predicate OutcomeOfVerdict(run: GraphRun, to: Stage)
    requires run.graph.Some? && run.graph.value.s.pc.Returned?
  {
    var live := run.graph.value;
    && (to == Publishing ==> GV.AllGreen(live.g, live.s, live.s.pc.rows))
    && (to == Publishing <==> live.s.pc.err == GS.NoError && live.s.pc.culprit == "")
    && (to == Concluded(Skipped) <==> live.s.cancelled)
    && (to == Concluded(Errored) <==> live.s.pc.culprit != "" && RedWith(live, true))
    && (to == Concluded(Rejected) <==> live.s.pc.culprit != "" && RedWith(live, false))
  }

  lemma TerminalMapping(run: GraphRun)
    requires RunOk(run) && run.graph.Some? && run.graph.value.s.pc.Returned?
    ensures OutcomeOfVerdict(run, AfterRun(run))
  {
    var live := run.graph.value;
    GV.SchedulableIsSatisfiable(live.g, live.s);
    if live.s.pc.culprit != "" {
      GV.RedReturn(live.g, live.s);
      RedOutcome(live, GS.FirstRed(live.g, live.s.results, 0));
    } else if live.s.pc.err == GS.NoError {
      GV.GreenReturn(live.g, live.s);
    }
  }

  // ---------------------------------------------------------------- outcome to memory

  /** What finishing a run of sha makes of its lane's memory. A landed run is remembered as
      synced and clears any park; a skipped one leaves no trace; an erred one is retried
      once, if automatic retries are on, none was spent on sha yet and the daemon is not
      draining; any other parks the lane at sha. */
  predicate LaneAfter(autoRetry: bool, draining: bool, l: Lane, m: Lane, sha: Sha, outcome: Outcome) {
    && m.running == None && !m.cancelled
    && match outcome
       case Landed => m.synced == sha && m.parked == None && m.autoRetried == l.autoRetried
       case Skipped => m.synced == l.synced && m.parked == l.parked && m.autoRetried == l.autoRetried
       case Rejected => m.synced == l.synced && m.parked == Some(sha) && m.autoRetried == l.autoRetried
       case Errored =>
         && m.synced == l.synced
         && if autoRetry && !draining && l.autoRetried != sha then m.parked == None && m.autoRetried == sha
            else m.parked == Some(sha) && m.autoRetried == l.autoRetried
  }

  /** In every run of the system, finishing does just that to the run's lane, and nothing to
      any other. */
  lemma FinishingIsRemembered(c: Config, states: seq<State>, steps: seq<Step>, k: nat, env: string)
    requires IsRun(c, states, steps) && k < |steps| && steps[k].Finish? && steps[k].r < |states[k].runs|
    ensures var s, run, l, m := states[k], states[k].runs[steps[k].r], LaneOf(states[k], env), LaneOf(states[k + 1], env);
            && run.stage.Concluded?
            && if env == run.env then LaneAfter(c.autoRetry, s.draining, l, m, run.sha, run.stage.outcome) else m == l
  {
    FinishIsRemembered(c, states[k], steps[k].r, env);
  }

  lemma FinishIsRemembered(c: Config, s: State, r: nat, env: string)
    requires Enabled(c, s, Finish(r))
    ensures var run, l, m := s.runs[r], LaneOf(s, env), LaneOf(Apply(c, s, Finish(r)), env);
            if env == run.env then LaneAfter(c.autoRetry, s.draining, l, m, run.sha, run.stage.outcome) else m == l
  {
  }

  /** A pass that finds a lane parked at anything but the revision it wants unparks it, and
      one that finds it parked at that revision does not. */
  lemma PassUnparks(c: Config, states: seq<State>, steps: seq<Step>, k: nat)
    requires IsRun(c, states, steps) && k < |steps| && steps[k].StepLaneFirst? && states[k].pass.Stepping?
    requires states[k].pass.k < |c.envs|
    ensures var s, env := states[k], c.envs[states[k].pass.k].name;
            LaneOf(states[k + 1], env).parked
            == if LaneOf(s, env).parked == Some(s.pass.desired) then Some(s.pass.desired) else None
  {
  }

  /** Some finished run of env at sha ended with the outcome. */
  ghost predicate Ended(s: State, env: string, sha: Sha, outcome: Outcome) {
    exists r: nat :: r < |s.runs| && s.runs[r].env == env && s.runs[r].sha == sha && s.runs[r].stage == Released(outcome)
  }

  /** A lane is synced to a revision that landed, parked at one that was rejected or
      erred, and has spent its automatic retry on one that erred. */
  ghost predicate Truthful(s: State, env: string) {
    var l := LaneOf(s, env);
    && (l.synced != "" ==> Ended(s, env, l.synced, Landed))
    && (l.parked.Some? ==> Ended(s, env, l.parked.value, Rejected) || Ended(s, env, l.parked.value, Errored))
    && (l.autoRetried != "" ==> Ended(s, env, l.autoRetried, Errored))
  }

  lemma EndedStays(c: Config, s: State, step: Step, env: string, sha: Sha, outcome: Outcome)
    requires Enabled(c, s, step) && Ended(s, env, sha, outcome)
    ensures Ended(Apply(c, s, step), env, sha, outcome)
  {
    var r: nat :| r < |s.runs| && s.runs[r].env == env && s.runs[r].sha == sha && s.runs[r].stage == Released(outcome);
    if OwnStep(step) { OwnMovesRun(c, s, step, r); } else { OthersMoveRun(c, s, step, r); }
    assert Apply(c, s, step).runs[r].stage == Released(outcome);
  }

  lemma EverythingEndedStays(c: Config, s: State, step: Step, env: string)
    requires Enabled(c, s, step)
    ensures forall sha, outcome :: Ended(s, env, sha, outcome) ==> Ended(Apply(c, s, step), env, sha, outcome)
  {
    forall sha, outcome | Ended(s, env, sha, outcome) ensures Ended(Apply(c, s, step), env, sha, outcome) {
      EndedStays(c, s, step, env, sha, outcome);
    }
  }

  /** Except when a run finishes or the daemon restarts, a lane's memory only ever loses its park. */
  lemma MemoryStays(c: Config, s: State, step: Step, env: string)
    requires Enabled(c, s, step) && !step.Finish? && !step.Restart?
    ensures var l, m := LaneOf(s, env), LaneOf(Apply(c, s, step), env);
            m.synced == l.synced && m.autoRetried == l.autoRetried && (m.parked == l.parked || m.parked.None?)
  {
    if !step.StepLaneSecond? { LaneMemoryStays(c, s, step, env); }
  }

  lemma FinishedHasEnded(c: Config, s: State, r: nat)
    requires Enabled(c, s, Finish(r))
    ensures Ended(Apply(c, s, Finish(r)), s.runs[r].env, s.runs[r].sha, s.runs[r].stage.outcome)
  {
    assert Apply(c, s, Finish(r)).runs[r].stage == Released(s.runs[r].stage.outcome);
  }

  lemma TruthfulStep(c: Config, s: State, step: Step, env: string)
    requires Enabled(c, s, step) && Truthful(s, env)
    ensures Truthful(Apply(c, s, step), env)
  {
    EverythingEndedStays(c, s, step, env);
    if step.Finish? {
      FinishedHasEnded(c, s, step.r);
    } else if !step.Restart? {
      MemoryStays(c, s, step, env);
    }
  }

  /** In every reachable state, every lane's memory is truthful. */
  lemma {:induction false} LanesAreTruthful(c: Config, states: seq<State>, steps: seq<Step>, k: nat, env: string)
    requires IsRun(c, states, steps) && k < |states|
    ensures Truthful(states[k], env)
  {
    if k > 0 {
      LanesAreTruthful(c, states, steps, k - 1, env);
      TruthfulStep(c, states[k - 1], steps[k - 1], env);
    }
  }
}
