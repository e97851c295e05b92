/** Bounded attempts: while an environment's desired revision stays put, the lane starts
    at most two graph runs for it, and a drained daemon starts none. */
module Attempts {
  import opened Options
  import opened Tracker
  import opened LaneSafety
  import opened Promotion

  /** The step from s to t started a graph run of env at sha. */
  predicate Started(s: State, t: State, env: string, sha: Sha) {
    |t.runs| > |s.runs| && t.runs[|s.runs|].env == env && t.runs[|s.runs|].sha == sha
  }

  /** How many of the steps numbered lo..hi started a run of env at sha. */
  function Starts(states: seq<State>, env: string, sha: Sha, lo: nat, hi: nat): nat
    requires lo <= hi < |states|
    decreases hi - lo
  {
    if lo == hi then 0
    else (if Started(states[lo], states[lo + 1], env, sha) then 1 else 0) + Starts(states, env, sha, lo + 1, hi)
  }

  /** Nobody retries the lane by hand or restarts the daemon, every pass sees sha as the lane's
      desired revision, and no run at sha is concluded by a cancellation. */
  predicate Steady(c: Config, s: State, step: Step, env: string, sha: Sha) {
    && (step.Retry? ==> step.env != env) && !step.Restart?
    && (step.StepLaneFirst? && s.pass.Stepping? && s.pass.k < |c.envs| && c.envs[s.pass.k].name == env ==>
          s.pass.desired == sha)
    && (step.StepLaneSecond? && s.pass.Deciding? && s.pass.k < |c.envs| && c.envs[s.pass.k].name == env ==>
          s.pass.desired == sha)
    && (step.Finish? && step.r < |s.runs| && s.runs[step.r].env == env && s.runs[step.r].sha == sha ==>
          s.runs[step.r].stage != Concluded(Skipped))
  }

  function RetriesLeft(c: Config, l: Lane, sha: Sha): nat {
    if c.autoRetry && l.autoRetried != sha then 1 else 0
  }

  function MostStarts(c: Config): nat {
    if c.autoRetry then 2 else 1
  }

  /** An upper bound on the runs of env at sha the lane can still start. */
  function StartsLeft(c: Config, s: State, env: string, sha: Sha): (n: nat)
    ensures n <= MostStarts(c)
  {
    var l := LaneOf(s, env);
    if l.running.Some? then
      if l.running.value < |s.runs| && s.runs[l.running.value].sha == sha then RetriesLeft(c, l, sha) else MostStarts(c)
    else if l.synced == sha || l.parked == Some(sha) then 0
    else 1 + RetriesLeft(c, l, sha)
  }

  lemma RunsKeepSha(c: Config, s: State, step: Step, r: nat)
    requires Enabled(c, s, step) && r < |s.runs|
    ensures r < |Apply(c, s, step).runs| && Apply(c, s, step).runs[r].sha == s.runs[r].sha
  {
    IdentityStays(c, s, step, r);
  }

  /** Finishing a run never makes room for more starts than it had left. */
  lemma FinishSpends(c: Config, s: State, r: nat, env: string, sha: Sha)
    requires LanesOk(s) && Enabled(c, s, Finish(r)) && Steady(c, s, Finish(r), env, sha)
    ensures StartsLeft(c, Apply(c, s, Finish(r)), env, sha) <= StartsLeft(c, s, env, sha)
  {
    assert RunIsItsLanes(s, r);
    assert LanePointsAtRun(s, env);
  }

  /** Starting a run spends one start. */
  lemma StartSpends(c: Config, s: State, allow: bool, env: string, sha: Sha)
    requires LanesOk(s) && DecidesForIdleLane(c, s)
    requires Enabled(c, s, StepLaneSecond(allow)) && Steady(c, s, StepLaneSecond(allow), env, sha)
    ensures var t := Apply(c, s, StepLaneSecond(allow));
            StartsLeft(c, t, env, sha) + (if Started(s, t, env, sha) then 1 else 0) <= StartsLeft(c, s, env, sha)
  {
    assert LanePointsAtRun(s, env);
  }

  /** No other step starts anything or gives starts back. */
  lemma OthersSpendNothing(c: Config, s: State, step: Step, env: string, sha: Sha)
    requires LanesOk(s) && Enabled(c, s, step) && Steady(c, s, step, env, sha)
    requires !step.Finish? && !step.StepLaneSecond?
    ensures var t := Apply(c, s, step);
            |t.runs| == |s.runs| && StartsLeft(c, t, env, sha) <= StartsLeft(c, s, env, sha)
  {
    assert LanePointsAtRun(s, env);
    var l := LaneOf(s, env);
    if l.running.Some? { RunsKeepSha(c, s, step, l.running.value); }
    LaneMemoryStays(c, s, step, env);
  }

  lemma StepSpends(c: Config, s: State, step: Step, env: string, sha: Sha)
    requires LanesOk(s) && DecidesForIdleLane(c, s) && Enabled(c, s, step) && Steady(c, s, step, env, sha)
    ensures var t := Apply(c, s, step);
            StartsLeft(c, t, env, sha) + (if Started(s, t, env, sha) then 1 else 0) <= StartsLeft(c, s, env, sha)
  {
    match step
    case Finish(r) => FinishSpends(c, s, r, env, sha); assert |Apply(c, s, step).runs| == |s.runs|;
    case StepLaneSecond(allow) => StartSpends(c, s, allow, env, sha);
    case _ => OthersSpendNothing(c, s, step, env, sha);
  }

  /** However the graph runs turn out, however the mirror lags and whatever the policy
      answers: over any stretch of any run in which sha stays the desired revision, the
      lane starts at most two runs of it, and at most one without automatic retry. */
  lemma {:induction false} AtMostTwoAttempts(c: Config, states: seq<State>, steps: seq<Step>,
                                            env: string, sha: Sha, lo: nat, hi: nat)
    requires Sane(c) && IsRun(c, states, steps) && lo <= hi <= |steps|
    requires forall k :: lo <= k < hi ==> Steady(c, states[k], steps[k], env, sha)
    ensures Starts(states, env, sha, lo, hi) <= StartsLeft(c, states[lo], env, sha) <= MostStarts(c)
    decreases hi - lo
  {
    if lo < hi {
      LaneSafety.EveryRunKeepsInv(c, states, steps, lo);
      StepSpends(c, states[lo], steps[lo], env, sha);
      AtMostTwoAttempts(c, states, steps, env, sha, lo + 1, hi);
    }
  }

  /** The runs of env at sha on record from position `from` on. */
  function RunsAt(runs: seq<GraphRun>, from: nat, env: string, sha: Sha): set<nat> {
    set i: nat | from <= i < |runs| && runs[i].env == env && runs[i].sha == sha
  }

  /** Runs stay on record under their number, environment and revision. */
  ghost predicate StillThere(was: seq<GraphRun>, now: seq<GraphRun>) {
    |was| <= |now| && forall i :: 0 <= i < |was| ==> now[i].env == was[i].env && now[i].sha == was[i].sha
  }

  lemma RunsStayThere(c: Config, s: State, step: Step)
    requires Enabled(c, s, step)
    ensures StillThere(s.runs, Apply(c, s, step).runs) && |Apply(c, s, step).runs| <= |s.runs| + 1
  {
    forall r: nat | r < |s.runs|
      ensures var t := Apply(c, s, step); r < |t.runs| && t.runs[r].env == s.runs[r].env && t.runs[r].sha == s.runs[r].sha
    { IdentityStays(c, s, step, r); }
    RunsGrowByOne(c, s, step);
  }

  lemma RunsGrowByOne(c: Config, s: State, step: Step)
    requires Enabled(c, s, step)
    ensures |s.runs| <= |Apply(c, s, step).runs| <= |s.runs| + 1
  {
    if OwnStep(step) && step.r < |s.runs| { OwnMovesRun(c, s, step, step.r); }
  }

  lemma RunsStayAt(c: Config, states: seq<State>, steps: seq<Step>, k: nat)
    requires IsRun(c, states, steps) && k < |steps|
    ensures StillThere(states[k].runs, states[k + 1].runs) && |states[k + 1].runs| <= |states[k].runs| + 1
  {
    RunsStayThere(c, states[k], steps[k]);
  }

  /** One step's worth of runs on record. */
  lemma OneMoreRun(s: State, t: State, end: seq<GraphRun>, env: string, sha: Sha)
    requires StillThere(s.runs, t.runs) && StillThere(t.runs, end) && |t.runs| <= |s.runs| + 1
    ensures StillThere(s.runs, end)
    ensures |RunsAt(end, |s.runs|, env, sha)|
            == (if Started(s, t, env, sha) then 1 else 0) + |RunsAt(end, |t.runs|, env, sha)|
  {
    if |t.runs| > |s.runs| { CountOne(end, |s.runs|, env, sha); }
  }

  lemma CountOne(runs: seq<GraphRun>, from: nat, env: string, sha: Sha)
    requires from < |runs|
    ensures |RunsAt(runs, from, env, sha)|
            == (if runs[from].env == env && runs[from].sha == sha then 1 else 0) + |RunsAt(runs, from + 1, env, sha)|
  {
    var now, later := RunsAt(runs, from, env, sha), RunsAt(runs, from + 1, env, sha);
    if runs[from].env == env && runs[from].sha == sha {
      assert now == {from} + later;
    } else {
      assert now == later;
    }
  }

  /** Counting started runs is counting runs on record. */
  lemma {:induction false} StartsAreOnRecord(c: Config, states: seq<State>, steps: seq<Step>,
                                            env: string, sha: Sha, lo: nat, hi: nat)
    requires IsRun(c, states, steps) && lo <= hi <= |steps|
    ensures StillThere(states[lo].runs, states[hi].runs)
    ensures |RunsAt(states[hi].runs, |states[lo].runs|, env, sha)| == Starts(states, env, sha, lo, hi)
    decreases hi - lo
  {
    if lo == hi {
      assert RunsAt(states[hi].runs, |states[lo].runs|, env, sha) == {};
    } else {
      StartsAreOnRecord(c, states, steps, env, sha, lo + 1, hi);
      RunsStayAt(c, states, steps, lo);
      OneMoreRun(states[lo], states[lo + 1], states[hi].runs, env, sha);
    }
  }

  /** So no more than two runs of a steadily desired revision are ever on record. */
  lemma AttemptsOnRecord(c: Config, states: seq<State>, steps: seq<Step>, env: string, sha: Sha, lo: nat, hi: nat)
    requires Sane(c) && IsRun(c, states, steps) && lo <= hi <= |steps|
    requires forall k :: lo <= k < hi ==> Steady(c, states[k], steps[k], env, sha)
    ensures |RunsAt(states[hi].runs, |states[lo].runs|, env, sha)| <= MostStarts(c)
  {
    AtMostTwoAttempts(c, states, steps, env, sha, lo, hi);
    StartsAreOnRecord(c, states, steps, env, sha, lo, hi);
  }

  /** A lane that is parked at, or synced to, the desired revision starts nothing. */
  lemma SettledLaneStaysQuiet(c: Config, states: seq<State>, steps: seq<Step>, env: string, sha: Sha, lo: nat, hi: nat)
    requires Sane(c) && IsRun(c, states, steps) && lo <= hi <= |steps|
    requires forall k :: lo <= k < hi ==> Steady(c, states[k], steps[k], env, sha)
    requires var l := LaneOf(states[lo], env); l.running.None? && (l.synced == sha || l.parked == Some(sha))
    ensures Starts(states, env, sha, lo, hi) == 0
  {
    AtMostTwoAttempts(c, states, steps, env, sha, lo, hi);
  }

  /** A run is only ever started for drift: its revision was put on the desired ref, is not
      what the pass saw deployed nor what the lane deployed last, the lane is not parked,
      every earlier run of the environment is over, and the daemon runs and is not draining. */
  lemma StartIsJustified(c: Config, states: seq<State>, steps: seq<Step>, k: nat)
    requires Sane(c) && IsRun(c, states, steps) && k < |steps| && |states[k + 1].runs| > |states[k].runs|
    ensures var s, run := states[k], states[k + 1].runs[|states[k].runs|];
            && c.runnable && !s.draining
            && run.sha != "" && run.sha != run.prev && Written(s.log, Desired(run.env), run.sha)
            && LaneOf(s, run.env).parked.None? && LaneOf(s, run.env).synced != run.sha
            && forall r: nat :: r < |s.runs| && s.runs[r].env == run.env ==> Over(s.runs[r].stage)
  {
    var s, t := states[k], states[k + 1];
    LaneSafety.EveryRunKeepsInv(c, states, steps, k);
    EveryRunKeepsLog(c, states, steps, k);
    WhoStarts(c, s, steps[k]);
    forall r: nat | r < |s.runs| && s.runs[r].env == t.runs[|s.runs|].env ensures Over(s.runs[r].stage) {
      assert RunIsItsLanes(s, r);
    }
  }

  lemma DrainedStep(c: Config, s: State, step: Step)
    requires Enabled(c, s, step) && s.draining && !step.Restart?
    ensures Apply(c, s, step).draining && |Apply(c, s, step).runs| == |s.runs|
  {
  }

  /** Once draining, the list of runs never grows again in this daemon's life. */
  lemma {:induction false} DrainStopsStarts(c: Config, states: seq<State>, steps: seq<Step>, lo: nat, hi: nat)
    requires IsRun(c, states, steps) && lo <= hi <= |steps| && states[lo].draining
    requires forall k :: lo <= k < hi ==> !steps[k].Restart?
    ensures states[hi].draining && |states[hi].runs| == |states[lo].runs|
    decreases hi - lo
  {
    if lo < hi {
      DrainedStep(c, states[lo], steps[lo]);
      DrainStopsStarts(c, states, steps, lo + 1, hi);
    }
  }
}
