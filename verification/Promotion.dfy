/** Promotion provenance: what an environment has deployed was deployed green by the
    environment it is sourced from, and by every environment up the chain, before. */
module Promotion {
  import opened Environments
  import Graphs
  import opened Tracker
  import opened LaneSafety
  import GS = GraphScheduler
  import GV = GraphVerdict

  /** e is tracked by the daemon and follows branch b. */
  ghost predicate TracksBranch(c: Config, e: string, b: string) {
    exists i :: 0 <= i < |c.envs| && c.envs[i].name == e && c.envs[i].mode == Track && c.envs[i].source == FromBranch(b)
  }

  /** e is tracked by the daemon and follows p's observed ref. */
  ghost predicate TracksEnv(c: Config, e: string, p: string) {
    exists i :: 0 <= i < |c.envs| && c.envs[i].name == e && c.envs[i].mode == Track && c.envs[i].source == FromEnv(p)
  }

  ghost predicate WrittenBefore(log: seq<Write>, k: int, ref: Ref, sha: Sha) {
    exists j :: 0 <= j < k && j < |log| && log[j].ref == ref && log[j].sha == sha
  }

  /** An observed ref is only written by a run of that environment and revision whose
      graph came back green. (Whether the run also learned that its push was accepted is
      another matter.) */
  ghost predicate ByGreenRun(s: State, w: Write) {
    && w.ref.Observed? && w.writer.ByRun? && w.writer.run < |s.runs|
    && s.runs[w.writer.run].env == w.ref.env && s.runs[w.writer.run].sha == w.sha
    && GreenReturn(s.runs[w.writer.run])
  }

  ghost predicate WriteOk(c: Config, s: State, k: nat)
    requires k < |s.log|
  {
    var w := s.log[k];
    match w.ref
    case Observed(e) =>
      && ByGreenRun(s, w) && WrittenBefore(s.log, k, Desired(e), w.sha)
      && Current(s.log[..k], w.ref) == s.runs[w.writer.run].prev
    case Desired(e) =>
      && (forall p :: TracksEnv(c, e, p) ==> WrittenBefore(s.log, k, Observed(p), w.sha))
      && (forall b :: TracksBranch(c, e, b) ==> WrittenBefore(s.log, k, Branch(b), w.sha))
      && (w.writer.Promotion? ==> Current(s.log[..k], w.ref) == w.writer.read != w.sha)
    case Branch(_) => true
  }

  ghost predicate LogOk(c: Config, s: State) {
    forall k: nat :: k < |s.log| ==> WriteOk(c, s, k)
  }

  /** A run's revision was once its environment's desired revision. */
  ghost predicate OriginOk(s: State, run: GraphRun) {
    Written(s.log, Desired(run.env), run.sha)
  }

  ghost predicate OriginsOk(s: State) {
    forall r: nat :: r < |s.runs| ==> OriginOk(s, s.runs[r])
  }

  ghost predicate PassOk(c: Config, s: State) {
    match s.pass
    case Between => true
    case Promoting(_, refs) => Mirrors(s.log, refs)
    case Stepping(k, refs, desired, _) =>
      Mirrors(s.log, refs) && (desired != "" && k < |c.envs| ==> Written(s.log, Desired(c.envs[k].name), desired))
    case Deciding(k, refs, desired, _) =>
      Mirrors(s.log, refs) && (desired != "" && k < |c.envs| ==> Written(s.log, Desired(c.envs[k].name), desired))
  }

  // ---------------------------------------------------------------- steps

  /** The remote log only grows, by at most one write per step. */
  lemma LogGrows(c: Config, s: State, step: Step)
    requires Enabled(c, s, step)
    ensures var t := Apply(c, s, step);
            s.log <= t.log && |t.log| <= |s.log| + 1
            && (|t.log| > |s.log| ==> step.Push? || step.Promote? || step.Publish?)
  {
  }

  lemma WrittenStays(log: seq<Write>, more: seq<Write>, ref: Ref, sha: Sha)
    requires log <= more && Written(log, ref, sha)
    ensures Written(more, ref, sha)
  {
    var k :| 0 <= k < |log| && log[k].ref == ref && log[k].sha == sha;
    assert more[k] == log[k];
  }

  lemma MirrorsStay(log: seq<Write>, more: seq<Write>, refs: map<Ref, Sha>)
    requires log <= more && Mirrors(log, refs)
    ensures Mirrors(more, refs)
  {
    forall ref | ref in refs && refs[ref] != "" ensures Written(more, ref, refs[ref]) {
      WrittenStays(log, more, ref, refs[ref]);
    }
  }

  /** A run's identity never changes. */
  lemma IdentityStays(c: Config, s: State, step: Step, r: nat)
    requires Enabled(c, s, step) && r < |s.runs|
    ensures var t := Apply(c, s, step);
            && r < |t.runs| && t.runs[r].env == s.runs[r].env && t.runs[r].sha == s.runs[r].sha
            && t.runs[r].prev == s.runs[r].prev
  {
    if OwnStep(step) { OwnMovesRun(c, s, step, r); } else { OthersMoveRun(c, s, step, r); }
  }

  lemma NodeKeepsGreen(c: Config, s: State, r: nat, step: GS.Step)
    requires Enabled(c, s, Node(r, step)) && GreenReturn(s.runs[r])
    ensures |Apply(c, s, Node(r, step)).runs| == |s.runs| && GreenReturn(Apply(c, s, Node(r, step)).runs[r])
  {
    GraphStepKeepsReturn(s.runs[r].graph.value.g, s.runs[r].graph.value.s, step);
  }

  /** A green return stays on record, whatever happens to the run afterwards. */
  lemma GreenStays(c: Config, s: State, step: Step, r: nat)
    requires Enabled(c, s, step) && r < |s.runs| && RunOk(s.runs[r]) && GreenReturn(s.runs[r])
    ensures r < |Apply(c, s, step).runs| && GreenReturn(Apply(c, s, step).runs[r])
  {
    if step.Node? && step.r == r {
      NodeKeepsGreen(c, s, r, step.step);
    } else if OwnStep(step) {
      OwnMovesRun(c, s, step, r);
    } else {
      OthersMoveRun(c, s, step, r);
    }
  }

  lemma OldWriteStaysOk(c: Config, s: State, step: Step, k: nat)
    requires RunsOk(s) && Enabled(c, s, step) && k < |s.log| && WriteOk(c, s, k)
    ensures k < |Apply(c, s, step).log| && WriteOk(c, Apply(c, s, step), k)
  {
    LogGrows(c, s, step);
    var t := Apply(c, s, step);
    assert t.log[k] == s.log[k];
    assert t.log[..k] == s.log[..k];
    if s.log[k].ref.Observed? {
      IdentityStays(c, s, step, s.log[k].writer.run);
      GreenStays(c, s, step, s.log[k].writer.run);
      BeforeStays(s.log, t.log, k, Desired(s.log[k].ref.env), s.log[k].sha);
    } else if s.log[k].ref.Desired? {
      forall p | TracksEnv(c, s.log[k].ref.env, p) ensures WrittenBefore(t.log, k, Observed(p), s.log[k].sha) {
        BeforeStays(s.log, t.log, k, Observed(p), s.log[k].sha);
      }
      forall b | TracksBranch(c, s.log[k].ref.env, b) ensures WrittenBefore(t.log, k, Branch(b), s.log[k].sha) {
        BeforeStays(s.log, t.log, k, Branch(b), s.log[k].sha);
      }
    }
  }

  lemma BeforeStays(log: seq<Write>, more: seq<Write>, k: int, ref: Ref, sha: Sha)
    requires log <= more && WrittenBefore(log, k, ref, sha)
    ensures WrittenBefore(more, k, ref, sha)
  {
    var j :| 0 <= j < k && j < |log| && log[j].ref == ref && log[j].sha == sha;
    assert more[j] == log[j];
  }

  lemma WrittenIsBefore(log: seq<Write>, more: seq<Write>, ref: Ref, sha: Sha)
    requires log <= more && Written(log, ref, sha)
    ensures WrittenBefore(more, |log|, ref, sha)
  {
    var j :| 0 <= j < |log| && log[j].ref == ref && log[j].sha == sha;
    assert more[j] == log[j];
  }

  /** A promotion writes a revision its source environment has already deployed. */
  lemma PromotionIsOk(c: Config, s: State, fate: Fate)
    requires Sane(c) && PassOk(c, s) && Enabled(c, s, Promote(fate))
    requires |Apply(c, s, Promote(fate)).log| > |s.log|
    ensures WriteOk(c, Apply(c, s, Promote(fate)), |s.log|)
  {
    var t := Apply(c, s, Promote(fate));
    var env := c.envs[s.pass.k];
    assert t.log[..|s.log|] == s.log;
    forall p | TracksEnv(c, env.name, p) ensures WrittenBefore(t.log, |s.log|, Observed(p), t.log[|s.log|].sha) {
      var i :| 0 <= i < |c.envs| && c.envs[i].name == env.name && c.envs[i].mode == Track && c.envs[i].source == FromEnv(p);
      assert i == s.pass.k;
      WrittenIsBefore(s.log, t.log, Observed(p), t.log[|s.log|].sha);
    }
    forall b | TracksBranch(c, env.name, b) ensures WrittenBefore(t.log, |s.log|, Branch(b), t.log[|s.log|].sha) {
      var i :| 0 <= i < |c.envs| && c.envs[i].name == env.name && c.envs[i].mode == Track && c.envs[i].source == FromBranch(b);
      assert i == s.pass.k;
      WrittenIsBefore(s.log, t.log, Branch(b), t.log[|s.log|].sha);
    }
  }

  lemma PublicationIsOk(c: Config, s: State, r: nat, choice: PublishChoice)
    requires RunsOk(s) && OriginsOk(s) && Enabled(c, s, Publish(r, choice))
    requires |Apply(c, s, Publish(r, choice)).log| > |s.log|
    ensures WriteOk(c, Apply(c, s, Publish(r, choice)), |s.log|)
  {
    var t := Apply(c, s, Publish(r, choice));
    assert t.log[..|s.log|] == s.log;
    assert OriginOk(s, s.runs[r]) && RunOk(s.runs[r]);
    PublishMoves(c, s, r, choice);
    WrittenIsBefore(s.log, t.log, Desired(s.runs[r].env), s.runs[r].sha);
  }

  lemma PushIsOk(c: Config, s: State, ref: Ref, sha: Sha)
    requires Enabled(c, s, Push(ref, sha))
    ensures WriteOk(c, Apply(c, s, Push(ref, sha)), |s.log|)
  {
  }

  lemma LogStep(c: Config, s: State, step: Step)
    requires Sane(c) && RunsOk(s) && LogOk(c, s) && OriginsOk(s) && PassOk(c, s) && Enabled(c, s, step)
    ensures LogOk(c, Apply(c, s, step))
  {
    LogGrows(c, s, step);
    var t := Apply(c, s, step);
    forall k: nat | k < |t.log| ensures WriteOk(c, t, k) {
      if k < |s.log| {
        OldWriteStaysOk(c, s, step, k);
      } else {
        match step
        case Push(ref, sha) => PushIsOk(c, s, ref, sha);
        case Promote(fate) => PromotionIsOk(c, s, fate);
        case Publish(r, choice) => PublicationIsOk(c, s, r, choice);
      }
    }
  }

  lemma OriginsStep(c: Config, s: State, step: Step)
    requires OriginsOk(s) && PassOk(c, s) && Enabled(c, s, step)
    ensures OriginsOk(Apply(c, s, step))
  {
    LogGrows(c, s, step);
    var t := Apply(c, s, step);
    forall r: nat | r < |t.runs| ensures OriginOk(t, t.runs[r]) {
      if r < |s.runs| {
        IdentityStays(c, s, step, r);
        assert OriginOk(s, s.runs[r]);
        WrittenStays(s.log, t.log, Desired(s.runs[r].env), s.runs[r].sha);
      } else {
        NewRunOrigin(c, s, step, r);
      }
    }
  }

  lemma NewRunOrigin(c: Config, s: State, step: Step, r: nat)
    requires PassOk(c, s) && Enabled(c, s, step) && |s.runs| <= r < |Apply(c, s, step).runs|
    ensures OriginOk(Apply(c, s, step), Apply(c, s, step).runs[r])
  {
    WhoStarts(c, s, step);
  }

  lemma PassStep(c: Config, s: State, step: Step)
    requires PassOk(c, s) && Enabled(c, s, step)
    ensures PassOk(c, Apply(c, s, step))
  {
    LogGrows(c, s, step);
    var t := Apply(c, s, step);
    if !s.pass.Between? {
      MirrorsStay(s.log, t.log, s.pass.refs);
      if (s.pass.Stepping? || s.pass.Deciding?) && s.pass.desired != "" && s.pass.k < |c.envs| {
        WrittenStays(s.log, t.log, Desired(c.envs[s.pass.k].name), s.pass.desired);
      }
      if step.Promote? { PromotePass(c, s, step.fate); }
    }
  }

  lemma PromotePass(c: Config, s: State, fate: Fate)
    requires PassOk(c, s) && Enabled(c, s, Promote(fate))
    requires Mirrors(Apply(c, s, Promote(fate)).log, s.pass.refs)
    ensures PassOk(c, Apply(c, s, Promote(fate)))
  {
    var t := Apply(c, s, Promote(fate));
    if |t.log| > |s.log| { assert t.log[|s.log|].ref == Desired(c.envs[s.pass.k].name); }
  }

  lemma {:induction false} EveryRunKeepsLog(c: Config, states: seq<State>, steps: seq<Step>, k: nat)
    requires Sane(c) && IsRun(c, states, steps) && k < |states|
    ensures LogOk(c, states[k]) && OriginsOk(states[k]) && PassOk(c, states[k])
  {
    if k > 0 {
      EveryRunKeepsLog(c, states, steps, k - 1);
      LaneSafety.EveryRunKeepsInv(c, states, steps, k - 1);
      LogStep(c, states[k - 1], steps[k - 1]);
      OriginsStep(c, states[k - 1], steps[k - 1]);
      PassStep(c, states[k - 1], steps[k - 1]);
    }
  }

  // ---------------------------------------------------------------- theorems

  /** The j-th write put sha on e's observed ref, and was made by a run of e at sha whose
      graph finished with every node green. */
  ghost predicate DeployedGreen(s: State, j: nat, e: string, sha: Sha) {
    && j < |s.log| && s.log[j].ref == Observed(e) && s.log[j].sha == sha
    && s.log[j].writer.ByRun? && s.log[j].writer.run < |s.runs|
    && var run := s.runs[s.log[j].writer.run];
       && run.env == e && run.sha == sha
       && run.graph.Some? && run.graph.value.s.pc.Returned?
       && run.graph.value.g.nodes != []
       && GV.AllGreen(run.graph.value.g, run.graph.value.s, run.graph.value.s.pc.rows)
  }

  lemma ObservedMeansGreen(c: Config, states: seq<State>, steps: seq<Step>, j: nat)
    requires Sane(c) && IsRun(c, states, steps)
    requires var s := states[|steps|]; j < |s.log| && s.log[j].ref.Observed?
    ensures var s := states[|steps|]; DeployedGreen(s, j, s.log[j].ref.env, s.log[j].sha)
  {
    var s := states[|steps|];
    EveryRunKeepsLog(c, states, steps, |steps|);
    LaneSafety.EveryRunKeepsInv(c, states, steps, |steps|);
    assert WriteOk(c, s, j);
    var run := s.runs[s.log[j].writer.run];
    assert RunOk(run) && GreenReturn(run) && FromConfig(c, run);
    GV.GreenReturn(run.graph.value.g, run.graph.value.s);
  }

  /** sha is the last value written to the ref before position k, "" if there is none. */
  ghost predicate LastBefore(log: seq<Write>, k: nat, ref: Ref, sha: Sha)
    requires k <= |log|
  {
    || (sha == "" && forall j :: 0 <= j < k ==> log[j].ref != ref)
    || exists j :: 0 <= j < k && log[j].ref == ref && log[j].sha == sha && forall m :: j < m < k ==> log[m].ref != ref
  }

  lemma {:induction false} CurrentIsLast(log: seq<Write>, k: nat, ref: Ref)
    requires k <= |log|
    ensures LastBefore(log, k, ref, Current(log[..k], ref))
  {
    if k > 0 && log[k - 1].ref != ref {
      CurrentIsLast(log, k - 1, ref);
      assert log[..k][..k - 1] == log[..k - 1];
      assert Current(log[..k], ref) == Current(log[..k - 1], ref);
    }
  }

  /** Compare-and-swap discipline: every write the daemon makes replaces exactly the value
      it had read, so an observed ref is a linked list of green runs, each starting from
      the revision the one before it left. */
  lemma WritesReplaceWhatWasRead(c: Config, states: seq<State>, steps: seq<Step>, k: nat)
    requires Sane(c) && IsRun(c, states, steps) && k < |states[|steps|].log|
    ensures var s, w := states[|steps|], states[|steps|].log[k];
            && (w.ref.Observed? ==>
                  w.writer.ByRun? && w.writer.run < |s.runs|
                  && LastBefore(s.log, k, w.ref, s.runs[w.writer.run].prev))
            && (w.ref.Desired? && w.writer.Promotion? ==> LastBefore(s.log, k, w.ref, w.writer.read) && w.writer.read != w.sha)
  {
    EveryRunKeepsLog(c, states, steps, |steps|);
    assert WriteOk(c, states[|steps|], k);
    CurrentIsLast(states[|steps|].log, k, states[|steps|].log[k].ref);
  }

  /** The tip a mirror shows at an environment's source: the branch it names, or the
      observed ref of the environment it names; "" if the mirror has neither. */
  ghost predicate TipAtSource(env: Environment, refs: map<Ref, Sha>, tip: Sha) {
    && (forall b :: env.source == FromBranch(b) ==> tip == if Branch(b) in refs then refs[Branch(b)] else "")
    && (forall p :: env.source == FromEnv(p) ==> tip == if Observed(p) in refs then refs[Observed(p)] else "")
  }

  lemma SourceTipIsTip(env: Environment, refs: map<Ref, Sha>)
    ensures TipAtSource(env, refs, SourceTip(env, refs))
  {
  }

  /** When a pass promotes environment k: it is tracked, the mirror shows a tip at its source
      that differs from the desired value the mirror shows, and the push reaches a remote
      that still holds that value. */
  ghost predicate Promotes(c: Config, s: State, fate: Fate, tip: Sha)
    requires s.pass.Promoting? && s.pass.k < |c.envs|
  {
    var env, refs := c.envs[s.pass.k], s.pass.refs;
    var seen := if Desired(env.name) in refs then refs[Desired(env.name)] else "";
    env.mode == Track && TipAtSource(env, refs, tip) && tip != "" && tip != seen && fate != Lost
    && LastBefore(s.log, |s.log|, Desired(env.name), seen)
  }

  lemma {:induction false} LastIsUnique(log: seq<Write>, k: nat, ref: Ref, x: Sha, y: Sha)
    requires k <= |log| && LastBefore(log, k, ref, x) && LastBefore(log, k, ref, y)
    ensures x == y
  {
  }

  ghost predicate PromotionHappened(c: Config, s: State, t: State, fate: Fate, tip: Sha)
    requires s.pass.Promoting? && s.pass.k < |c.envs|
  {
    var env := c.envs[s.pass.k];
    var seen := if Desired(env.name) in s.pass.refs then s.pass.refs[Desired(env.name)] else "";
    && t.pass.Stepping?
    && if Promotes(c, s, fate, tip)
       then t.log == s.log + [Write(Desired(env.name), tip, Promotion(seen))]
            && t.pass.desired == if fate == Answered then tip else seen
       else t.log == s.log && t.pass.desired == seen
  }

  /** A pass promotes exactly then, to that tip, and goes on with it if it got the answer. */
  lemma PromotionHappens(c: Config, states: seq<State>, steps: seq<Step>, k: nat, tip: Sha)
    requires IsRun(c, states, steps) && k < |steps| && steps[k].Promote? && states[k].pass.Promoting?
    requires states[k].pass.k < |c.envs| && TipAtSource(c.envs[states[k].pass.k], states[k].pass.refs, tip)
    ensures PromotionHappened(c, states[k], states[k + 1], steps[k].fate, tip)
  {
    var s, env := states[k], c.envs[states[k].pass.k];
    var desired := Desired(env.name);
    SourceTipIsTip(env, s.pass.refs);
    assert tip == SourceTip(env, s.pass.refs);
    assert s.log[..|s.log|] == s.log;
    CurrentIsLast(s.log, |s.log|, desired);
    var seen := if desired in s.pass.refs then s.pass.refs[desired] else "";
    if LastBefore(s.log, |s.log|, desired, seen) { LastIsUnique(s.log, |s.log|, desired, seen, Current(s.log, desired)); }
  }

  /** Publishing is a compare-and-swap: a permitted push that reaches a remote still holding
      what the run started from writes the run's revision, and lands the run if its answer
      comes back; a refused one rejects the run, and any other ends it in error. */
  lemma PublishingIsExact(c: Config, states: seq<State>, steps: seq<Step>, k: nat)
    requires IsRun(c, states, steps) && k < |steps| && steps[k].Publish? && steps[k].r < |states[k].runs|
    ensures var s, t, r, choice := states[k], states[k + 1], steps[k].r, steps[k].choice;
            var run := s.runs[r];
            var holds := LastBefore(s.log, |s.log|, Observed(run.env), run.prev);
            && |t.runs| == |s.runs|
            && t.log == (if choice.Pushed? && choice.fate != Lost && holds
                         then s.log + [Write(Observed(run.env), run.sha, ByRun(r))] else s.log)
            && t.runs[r].stage == Concluded(if choice == Refused then Rejected
                                            else if choice == Pushed(Answered) && holds then Landed else Errored)
  {
    var s, run := states[k], states[k].runs[steps[k].r];
    assert s.log[..|s.log|] == s.log;
    CurrentIsLast(s.log, |s.log|, Observed(run.env));
    if LastBefore(s.log, |s.log|, Observed(run.env), run.prev) {
      LastIsUnique(s.log, |s.log|, Observed(run.env), run.prev, Current(s.log, Observed(run.env)));
    }
  }

  /** One link: what a tracked environment has deployed, its source environment deployed
      green strictly earlier, whatever the mirror showed in between. */
  lemma PromotionProvenance(c: Config, states: seq<State>, steps: seq<Step>, k: nat, e: string, p: string) returns (j: nat)
    requires Sane(c) && IsRun(c, states, steps) && TracksEnv(c, e, p)
    requires var s := states[|steps|]; k < |s.log| && s.log[k].ref == Observed(e)
    ensures var s := states[|steps|]; j < k && DeployedGreen(s, j, p, s.log[k].sha)
  {
    var s := states[|steps|];
    EveryRunKeepsLog(c, states, steps, |steps|);
    assert WriteOk(c, s, k);
    var d: nat :| d < k && s.log[d].ref == Desired(e) && s.log[d].sha == s.log[k].sha;
    assert WriteOk(c, s, d);
    assert WrittenBefore(s.log, d, Observed(p), s.log[k].sha);
    j :| j < d && s.log[j].ref == Observed(p) && s.log[j].sha == s.log[k].sha;
    ObservedMeansGreen(c, states, steps, j);
  }

  /** The other kind of source: what an environment tracking a branch has deployed was the
      branch's tip before. */
  lemma BranchProvenance(c: Config, states: seq<State>, steps: seq<Step>, k: nat, e: string, b: string) returns (j: nat)
    requires Sane(c) && IsRun(c, states, steps) && TracksBranch(c, e, b)
    requires var s := states[|steps|]; k < |s.log| && s.log[k].ref == Observed(e)
    ensures var s := states[|steps|]; j < k && s.log[j].ref == Branch(b) && s.log[j].sha == s.log[k].sha
  {
    var s := states[|steps|];
    EveryRunKeepsLog(c, states, steps, |steps|);
    assert WriteOk(c, s, k);
    var d: nat :| d < k && s.log[d].ref == Desired(e) && s.log[d].sha == s.log[k].sha;
    assert WriteOk(c, s, d);
    assert WrittenBefore(s.log, d, Branch(b), s.log[k].sha);
    j :| j < d && s.log[j].ref == Branch(b) && s.log[j].sha == s.log[k].sha;
  }

  /** Each environment in the chain is tracked and sourced from the next one. */
  ghost predicate SourceChain(c: Config, chain: seq<string>) {
    |chain| > 0 && forall i, j :: 0 <= i && j == i + 1 && j < |chain| ==> TracksEnv(c, chain[i], chain[j])
  }

  /** The whole chain: the revision was deployed green by the far end of the chain before,
      at least one write earlier per link. */
  lemma {:induction false} ChainProvenance(c: Config, states: seq<State>, steps: seq<Step>, k: nat, chain: seq<string>)
    returns (j: nat)
    requires Sane(c) && IsRun(c, states, steps) && SourceChain(c, chain)
    requires var s := states[|steps|]; k < |s.log| && s.log[k].ref == Observed(chain[0])
    ensures var s := states[|steps|];
            j + |chain| - 1 <= k && DeployedGreen(s, j, chain[|chain| - 1], s.log[k].sha)
    decreases |chain|
  {
    if |chain| == 1 {
      j := k;
      ObservedMeansGreen(c, states, steps, k);
    } else {
      assert TracksEnv(c, chain[0], chain[1]);
      var m := PromotionProvenance(c, states, steps, k, chain[0], chain[1]);
      assert SourceChain(c, chain[1..]);
      j := ChainProvenance(c, states, steps, m, chain[1..]);
    }
  }

  /** And if the far end tracks a branch, the revision was that branch's tip before all. */
  lemma ChainFromBranch(c: Config, states: seq<State>, steps: seq<Step>, k: nat, chain: seq<string>, b: string)
    returns (j: nat)
    requires Sane(c) && IsRun(c, states, steps) && SourceChain(c, chain) && TracksBranch(c, chain[|chain| - 1], b)
    requires var s := states[|steps|]; k < |s.log| && s.log[k].ref == Observed(chain[0])
    ensures var s := states[|steps|];
            j + |chain| <= k && s.log[j].ref == Branch(b) && s.log[j].sha == s.log[k].sha
  {
    var far := ChainProvenance(c, states, steps, k, chain);
    j := BranchProvenance(c, states, steps, far, chain[|chain| - 1], b);
  }

  ghost predicate SourcedWithin(c: Config, ring: set<string>, e: string) {
    exists p :: p in ring && TracksEnv(c, e, p)
  }

  /** Environments tracked in a ring of sources can never deploy anything: the reason such
      a configuration is refused. */
  lemma {:induction false} RingNeverDeploys(c: Config, states: seq<State>, steps: seq<Step>, ring: set<string>, k: nat)
    requires Sane(c) && IsRun(c, states, steps) && k < |states[|steps|].log|
    requires forall e {:trigger SourcedWithin(c, ring, e)} :: e in ring ==> SourcedWithin(c, ring, e)
    ensures !(states[|steps|].log[k].ref.Observed? && states[|steps|].log[k].ref.env in ring)
    decreases k
  {
    var w := states[|steps|].log[k];
    if w.ref.Observed? && w.ref.env in ring {
      assert SourcedWithin(c, ring, w.ref.env);
      var p :| p in ring && TracksEnv(c, w.ref.env, p);
      var j := PromotionProvenance(c, states, steps, k, w.ref.env, p);
      RingNeverDeploys(c, states, steps, ring, j);
    }
  }

  lemma SourceWithin(c: Config, ring: set<string>, e: string) returns (p: string)
    requires DistinctEnvs(c.envs) && SourcedWithin(c, ring, e)
    ensures p in ring && p in Graphs.Deps(SourceEdges(c.envs), e)
  {
    p :| p in ring && TracksEnv(c, e, p);
    var i :| 0 <= i < |c.envs| && c.envs[i].name == e && c.envs[i].mode == Track && c.envs[i].source == FromEnv(p);
    SourceOf(c.envs, i);
  }

  /** And such a configuration is refused: its environments have a ring of sources. */
  lemma RingIsRefused(c: Config, ring: set<string>)
    requires DistinctEnvs(c.envs) && ring != {}
    requires forall e {:trigger SourcedWithin(c, ring, e)} :: e in ring ==> SourcedWithin(c, ring, e)
    ensures HasRing(c.envs)
  {
    forall e | e in ring ensures exists d :: d in Graphs.Deps(SourceEdges(c.envs), e) && d in ring {
      assert SourcedWithin(c, ring, e);
      var p := SourceWithin(c, ring, e);
    }
    StuckHasRing(c.envs, ring);
  }
}
