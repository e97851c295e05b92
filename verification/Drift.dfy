/** Drift gets deployed: an idle lane that may run its desired revision does run it once a
    pass sees the drift and the policy allows, and an errored attempt is tried again. */
module Drift {
  import opened Options
  import opened Tracker
  import opened LaneSafety
  import opened LaneMemory
  import opened Promotion
  import opened Attempts

  /** The lane is idle, not parked and has not deployed sha last; the daemon admits runs. */
  predicate Waiting(c: Config, s: State, env: string, sha: Sha) {
    && c.runnable && !s.draining
    && var l := LaneOf(s, env);
       l.running == None && l.parked == None && l.synced != sha
  }

  /** No drain, no restart, and every pass that reaches the lane wants sha. */
  predicate Wanted(c: Config, s: State, step: Step, env: string, sha: Sha) {
    && !step.Drain? && !step.Restart?
    && (step.StepLaneSecond? && s.pass.Deciding? && s.pass.k < |c.envs| && c.envs[s.pass.k].name == env ==>
          s.pass.desired == sha)
  }

  /** A run of env at sha is on record from position n on. */
  ghost predicate Tried(runs: seq<GraphRun>, n: nat, env: string, sha: Sha) {
    exists i :: n <= i < |runs| && runs[i].env == env && runs[i].sha == sha
  }

  lemma SecondHalfWaits(c: Config, s: State, allow: bool, env: string, sha: Sha)
    requires Waiting(c, s, env, sha) && Enabled(c, s, StepLaneSecond(allow)) && Wanted(c, s, StepLaneSecond(allow), env, sha)
    ensures var t := Apply(c, s, StepLaneSecond(allow)); Waiting(c, t, env, sha) || Tried(t.runs, |s.runs|, env, sha)
  {
    var t := Apply(c, s, StepLaneSecond(allow));
    if c.envs[s.pass.k].name == env && |t.runs| > |s.runs| {
      assert t.runs[|s.runs|].env == env && t.runs[|s.runs|].sha == sha;
    }
  }

  lemma FinishWaits(c: Config, s: State, r: nat, env: string, sha: Sha)
    requires LanesOk(s) && Waiting(c, s, env, sha) && Enabled(c, s, Finish(r))
    ensures Waiting(c, Apply(c, s, Finish(r)), env, sha)
  {
    assert RunIsItsLanes(s, r);
  }

  lemma DrainingStays(c: Config, s: State, step: Step)
    requires Enabled(c, s, step) && !step.Drain? && !s.draining
    ensures !Apply(c, s, step).draining
  {
  }

  /** Waiting ends only with a run of sha. */
  lemma WaitingStep(c: Config, s: State, step: Step, env: string, sha: Sha)
    requires LanesOk(s) && Waiting(c, s, env, sha) && Enabled(c, s, step) && Wanted(c, s, step, env, sha)
    ensures var t := Apply(c, s, step); Waiting(c, t, env, sha) || Tried(t.runs, |s.runs|, env, sha)
  {
    if step.StepLaneSecond? {
      SecondHalfWaits(c, s, step.allow, env, sha);
    } else if step.Finish? {
      FinishWaits(c, s, step.r, env, sha);
    } else {
      LaneMemoryStays(c, s, step, env);
      DrainingStays(c, s, step);
    }
  }

  lemma WaitingAt(c: Config, states: seq<State>, steps: seq<Step>, env: string, sha: Sha, k: nat)
    requires Sane(c) && IsRun(c, states, steps) && k < |steps|
    requires Waiting(c, states[k], env, sha) && Wanted(c, states[k], steps[k], env, sha)
    ensures Waiting(c, states[k + 1], env, sha) || Tried(states[k + 1].runs, |states[k].runs|, env, sha)
  {
    LaneSafety.EveryRunKeepsInv(c, states, steps, k);
    WaitingStep(c, states[k], steps[k], env, sha);
  }

  lemma TriedStays(was: seq<GraphRun>, now: seq<GraphRun>, m: nat, n: nat, env: string, sha: Sha)
    requires StillThere(was, now) && n <= m && Tried(was, m, env, sha)
    ensures Tried(now, n, env, sha)
  {
    var i :| m <= i < |was| && was[i].env == env && was[i].sha == sha;
    assert now[i].env == env;
  }

  /** From s on: still waiting, or tried since. */
  ghost predicate WaitsOrTried(c: Config, s: State, n: nat, env: string, sha: Sha) {
    n <= |s.runs| && (Waiting(c, s, env, sha) || Tried(s.runs, n, env, sha))
  }

  ghost predicate WaitsStepwise(c: Config, states: seq<State>, env: string, sha: Sha, lo: nat, hi: nat)
    requires hi < |states|
  {
    forall k, m :: lo <= k && m == k + 1 && m <= hi ==>
      && StillThere(states[k].runs, states[m].runs)
      && (Waiting(c, states[k], env, sha) ==>
            Waiting(c, states[m], env, sha) || Tried(states[m].runs, |states[k].runs|, env, sha))
  }

  lemma WaitsOrTriedNext(c: Config, s: State, t: State, n: nat, env: string, sha: Sha)
    requires WaitsOrTried(c, s, n, env, sha) && StillThere(s.runs, t.runs)
    requires Waiting(c, s, env, sha) ==> Waiting(c, t, env, sha) || Tried(t.runs, |s.runs|, env, sha)
    ensures WaitsOrTried(c, t, n, env, sha)
  {
    if Tried(s.runs, n, env, sha) {
      TriedStays(s.runs, t.runs, n, n, env, sha);
    } else if !Waiting(c, t, env, sha) {
      TriedStays(t.runs, t.runs, |s.runs|, n, env, sha);
    }
  }

  lemma {:induction false} WaitsFrom(c: Config, states: seq<State>, env: string, sha: Sha, lo: nat, hi: nat)
    requires lo <= hi < |states| && WaitsStepwise(c, states, env, sha, lo, hi) && Waiting(c, states[lo], env, sha)
    ensures WaitsOrTried(c, states[hi], |states[lo].runs|, env, sha)
    decreases hi
  {
    if lo < hi {
      WaitsFrom(c, states, env, sha, lo, hi - 1);
      WaitsOrTriedNext(c, states[hi - 1], states[hi], |states[lo].runs|, env, sha);
    }
  }

  lemma KeepsWaiting(c: Config, states: seq<State>, steps: seq<Step>, env: string, sha: Sha, lo: nat, hi: nat)
    requires Sane(c) && IsRun(c, states, steps) && lo <= hi <= |steps| && Waiting(c, states[lo], env, sha)
    requires forall k :: lo <= k < hi ==> Wanted(c, states[k], steps[k], env, sha)
    ensures WaitsOrTried(c, states[hi], |states[lo].runs|, env, sha)
  {
    forall k, m | lo <= k && m == k + 1 && m <= hi
      ensures StillThere(states[k].runs, states[m].runs)
      ensures Waiting(c, states[k], env, sha) ==>
                Waiting(c, states[m], env, sha) || Tried(states[m].runs, |states[k].runs|, env, sha)
    {
      RunsStayAt(c, states, steps, k);
      if Waiting(c, states[k], env, sha) { WaitingAt(c, states, steps, env, sha, k); }
    }
    WaitsFrom(c, states, env, sha, lo, hi);
  }

  /** The pass looks at the lane of env, wants sha, and sees something else deployed. */
  predicate SeesDrift(c: Config, s: State, env: string, sha: Sha) {
    && s.pass.Stepping? && s.pass.k < |c.envs| && c.envs[s.pass.k].name == env
    && s.pass.desired == sha && s.pass.observed != sha && sha != ""
  }

  /** The pass has the lane's admission in the policy's hands. */
  predicate Asking(c: Config, s: State, env: string, sha: Sha) {
    && s.pass.Deciding? && s.pass.k < |c.envs| && c.envs[s.pass.k].name == env
    && s.pass.desired == sha && s.pass.observed != sha && sha != ""
  }

  lemma DriftIsAsked(c: Config, s: State, env: string, sha: Sha)
    requires Waiting(c, s, env, sha) && SeesDrift(c, s, env, sha) && Enabled(c, s, StepLaneFirst)
    ensures Asking(c, Apply(c, s, StepLaneFirst), env, sha)
  {
  }

  predicate PassMoves(step: Step) {
    step.BeginPass? || step.Promote? || step.StepLaneFirst? || step.StepLaneSecond? || step.EndPass? || step.Restart?
  }

  lemma AskingStays(c: Config, s: State, step: Step)
    requires Enabled(c, s, step) && !PassMoves(step)
    ensures Apply(c, s, step).pass == s.pass
  {
  }

  lemma {:induction false} KeepsAsking(c: Config, states: seq<State>, steps: seq<Step>, lo: nat, hi: nat)
    requires IsRun(c, states, steps) && lo <= hi <= |steps|
    requires forall k :: lo <= k < hi ==> !PassMoves(steps[k])
    ensures states[hi].pass == states[lo].pass
    decreases hi
  {
    if lo < hi {
      KeepsAsking(c, states, steps, lo, hi - 1);
      AskingStays(c, states[hi - 1], steps[hi - 1]);
    }
  }

  /** Allowed drift is deployed: the lane is taken by a run of sha, from what the pass saw. */
  lemma AllowedStarts(c: Config, s: State, env: string, sha: Sha)
    requires Waiting(c, s, env, sha) && Asking(c, s, env, sha) && Enabled(c, s, StepLaneSecond(true))
    ensures var t := Apply(c, s, StepLaneSecond(true));
            && |t.runs| == |s.runs| + 1 && LaneOf(t, env).running == Some(|s.runs|)
            && t.runs[|s.runs|].env == env && t.runs[|s.runs|].sha == sha && t.runs[|s.runs|].prev == s.pass.observed
  {
  }

  /** From any moment the lane waits: once a pass sees the drift and the policy then allows,
      a run of sha has been started since, if not by then already. */
  lemma DriftIsDeployed(c: Config, states: seq<State>, steps: seq<Step>, env: string, sha: Sha, lo: nat, look: nat, start: nat)
    requires Sane(c) && IsRun(c, states, steps) && lo <= look < start < |steps|
    requires Waiting(c, states[lo], env, sha)
    requires forall k :: lo <= k <= start ==> Wanted(c, states[k], steps[k], env, sha)
    requires steps[look] == StepLaneFirst && SeesDrift(c, states[look], env, sha)
    requires steps[start] == StepLaneSecond(true) && forall k :: look < k < start ==> !PassMoves(steps[k])
    ensures Tried(states[start + 1].runs, |states[lo].runs|, env, sha)
  {
    var n := |states[lo].runs|;
    KeepsWaiting(c, states, steps, env, sha, lo, look);
    KeepsWaiting(c, states, steps, env, sha, lo, start);
    RunsStayAt(c, states, steps, start);
    if Tried(states[start].runs, n, env, sha) {
      TriedStays(states[start].runs, states[start + 1].runs, n, n, env, sha);
    } else {
      TriedLater(c, states, steps, env, sha, n, look, start);
      DriftIsAsked(c, states[look], env, sha);
      KeepsAsking(c, states, steps, look + 1, start);
      AllowedStarts(c, states[start], env, sha);
      assert states[start + 1].runs[|states[start].runs|].sha == sha;
    }
  }

  lemma TriedLater(c: Config, states: seq<State>, steps: seq<Step>, env: string, sha: Sha, n: nat, look: nat, start: nat)
    requires IsRun(c, states, steps) && look <= start <= |steps|
    ensures Tried(states[look].runs, n, env, sha) ==> Tried(states[start].runs, n, env, sha)
  {
    StartsAreOnRecord(c, states, steps, env, sha, look, start);
    if Tried(states[look].runs, n, env, sha) { TriedStays(states[look].runs, states[start].runs, n, n, env, sha); }
  }

  // ---------------------------------------------------------------- trying again

  /** A lane never runs what it remembers as deployed last. */
  ghost predicate RunsNews(s: State, env: string) {
    var l := LaneOf(s, env);
    l.running.Some? && l.running.value < |s.runs| ==> l.synced != s.runs[l.running.value].sha
  }

  lemma NewsStep(c: Config, s: State, step: Step, env: string)
    requires LanesOk(s) && RunsNews(s, env) && Enabled(c, s, step)
    ensures RunsNews(Apply(c, s, step), env)
  {
    assert LanePointsAtRun(s, env);
    var l := LaneOf(s, env);
    if l.running.Some? { IdentityStays(c, s, step, l.running.value); }
    if step.Finish? {
      FinishIsRemembered(c, s, step.r, env);
    } else if step.StepLaneSecond? {
      StartedIsNews(c, s, step.allow, env);
    } else if !step.Restart? {
      LaneMemoryStays(c, s, step, env);
    }
  }

  lemma StartedIsNews(c: Config, s: State, allow: bool, env: string)
    requires LanesOk(s) && RunsNews(s, env) && Enabled(c, s, StepLaneSecond(allow))
    ensures RunsNews(Apply(c, s, StepLaneSecond(allow)), env)
  {
    assert LanePointsAtRun(s, env);
  }

  lemma NewsAt(c: Config, states: seq<State>, steps: seq<Step>, k: nat, env: string)
    requires Sane(c) && IsRun(c, states, steps) && k < |steps| && RunsNews(states[k], env)
    ensures RunsNews(states[k + 1], env)
  {
    LaneSafety.EveryRunKeepsInv(c, states, steps, k);
    NewsStep(c, states[k], steps[k], env);
  }

  lemma {:induction false} AlwaysNews(c: Config, states: seq<State>, steps: seq<Step>, k: nat, env: string)
    requires Sane(c) && IsRun(c, states, steps) && k < |states|
    ensures RunsNews(states[k], env)
  {
    if k > 0 {
      AlwaysNews(c, states, steps, k - 1, env);
      NewsAt(c, states, steps, k - 1, env);
    }
  }

  /** The run just finishing leaves its lane waiting for another attempt: it erred with the
      automatic retry unspent, or it was cancelled on an unparked lane. */
  predicate LeavesToRetry(c: Config, s: State, r: nat)
    requires r < |s.runs|
  {
    var l := LaneOf(s, s.runs[r].env);
    || (s.runs[r].stage == Concluded(Errored) && c.autoRetry && l.autoRetried != s.runs[r].sha)
    || s.runs[r].stage == Concluded(Skipped)
  }

  lemma RetryWaits(c: Config, states: seq<State>, steps: seq<Step>, k: nat)
    requires Sane(c) && IsRun(c, states, steps) && k < |steps| && steps[k].Finish? && steps[k].r < |states[k].runs|
    requires c.runnable && !states[k].draining && LeavesToRetry(c, states[k], steps[k].r)
    ensures var run := states[k].runs[steps[k].r]; Waiting(c, states[k + 1], run.env, run.sha)
  {
    var s, r := states[k], steps[k].r;
    LaneSafety.EveryRunKeepsInv(c, states, steps, k);
    AlwaysNews(c, states, steps, k, s.runs[r].env);
    FinishingIsRemembered(c, states, steps, k, s.runs[r].env);
    assert RunIsItsLanes(s, r);
    assert LanePointsAtRun(s, s.runs[r].env);
    DrainingStays(c, s, steps[k]);
  }

  /** An attempt that erred with its automatic retry unspent, or was cancelled, is followed
      by another one, if a pass then sees the drift and the policy allows. */
  lemma AnotherAttemptFollows(c: Config, states: seq<State>, steps: seq<Step>, k: nat, look: nat, start: nat)
    requires Sane(c) && IsRun(c, states, steps) && k < look < start < |steps|
    requires steps[k].Finish? && steps[k].r < |states[k].runs|
    requires c.runnable && !states[k].draining && LeavesToRetry(c, states[k], steps[k].r)
    requires var run := states[k].runs[steps[k].r];
             && SeesDrift(c, states[look], run.env, run.sha)
             && forall m :: k < m <= start ==> Wanted(c, states[m], steps[m], run.env, run.sha)
    requires steps[look] == StepLaneFirst
    requires steps[start] == StepLaneSecond(true) && forall m :: look < m < start ==> !PassMoves(steps[m])
    ensures var run := states[k].runs[steps[k].r];
            Tried(states[start + 1].runs, |states[k + 1].runs|, run.env, run.sha)
  {
    var run := states[k].runs[steps[k].r];
    RetryWaits(c, states, steps, k);
    DriftIsDeployed(c, states, steps, run.env, run.sha, k + 1, look, start);
  }
}
