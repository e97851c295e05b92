/** Deployment environments as the operator configures them. */
module Environments {
  import opened Options
  import opened Graphs
  import CycleSearch

  datatype Source = FromBranch(branch: string) | FromEnv(env: string)

  datatype Mode = Track | Manual

  datatype OnDesiredMove = FinishRun | CancelRun

  datatype Environment = Environment(
    name: string, source: Source, mode: Mode, onMove: OnDesiredMove, maxParallel: int)

  predicate DistinctEnvs(envs: seq<Environment>) {
    forall i, j :: 0 <= i < j < |envs| ==> envs[i].name != envs[j].name
  }

  /** The `source env=` graph: one edge from each environment sourced from another. */
  function SourceEdges(envs: seq<Environment>): (e: Edges)
    ensures forall n :: n in e ==> exists i :: 0 <= i < |envs| && envs[i].name == n
  {
    if envs == [] then map[]
    else
      var last := envs[|envs| - 1];
      var e := SourceEdges(envs[..|envs| - 1]);
      if last.source.FromEnv? then e[last.name := [last.source.env]] else e
  }

  /** With distinct names, an environment's edges are its own source and nothing else,
      whatever its mode. */
  lemma {:induction false} SourceOf(envs: seq<Environment>, i: nat)
    requires DistinctEnvs(envs) && i < |envs|
    ensures Deps(SourceEdges(envs), envs[i].name) == if envs[i].source.FromEnv? then [envs[i].source.env] else []
  {
    var k := |envs| - 1;
    if i < k {
      SourceOf(envs[..k], i);
    } else {
      forall n | n in SourceEdges(envs[..k]) ensures n != envs[k].name {
        var j :| 0 <= j < k && envs[..k][j].name == n;
        assert envs[j].name == n;
      }
    }
  }

  /** Environments, by position, each sourced from the next one, the last being the first. */
  ghost predicate Ring(envs: seq<Environment>, ring: seq<nat>) {
    && |ring| >= 2 && ring[0] == ring[|ring| - 1]
    && (forall k :: 0 <= k < |ring| ==> ring[k] < |envs|)
    && (forall k, m :: 0 <= k && m == k + 1 && m < |ring| ==> envs[ring[k]].source == FromEnv(envs[ring[m]].name))
  }

  ghost predicate HasRing(envs: seq<Environment>) {
    exists ring :: Ring(envs, ring)
  }

  ghost predicate OnRing(envs: seq<Environment>, node: string, dep: string) {
    exists ring :: Ring(envs, ring) && envs[ring[0]].name == node && envs[ring[1]].name == dep
  }

  lemma RingIsCycle(envs: seq<Environment>, ring: seq<nat>)
    requires DistinctEnvs(envs) && Ring(envs, ring)
    ensures !Acyclic(SourceEdges(envs))
  {
    var p := seq(|ring|, k requires 0 <= k < |ring| => envs[ring[k]].name);
    forall i, j | 0 <= i && j == i + 1 && j < |p| ensures p[j] in Deps(SourceEdges(envs), p[i]) {
      SourceOf(envs, ring[i]);
    }
    assert IsCycle(SourceEdges(envs), p);
  }

  ghost function PositionOf(envs: seq<Environment>, name: string): (i: nat)
    requires exists i :: 0 <= i < |envs| && envs[i].name == name
    ensures i < |envs| && envs[i].name == name
  {
    var i :| 0 <= i < |envs| && envs[i].name == name;
    i
  }

  /** A cycle of source edges goes through declared environments only. */
  lemma CycleIsDeclared(envs: seq<Environment>, p: seq<string>, k: nat)
    requires IsCycle(SourceEdges(envs), p) && k < |p|
    ensures exists i :: 0 <= i < |envs| && envs[i].name == p[k]
  {
    var m := if k == |p| - 1 then 0 else k;
    assert p[m + 1] in Deps(SourceEdges(envs), p[m]);
    assert p[m] in SourceEdges(envs);
  }

  lemma CycleIsRing(envs: seq<Environment>, p: seq<string>)
    requires DistinctEnvs(envs) && IsCycle(SourceEdges(envs), p)
    ensures OnRing(envs, p[0], p[1])
  {
    forall k: nat | k < |p| ensures exists i :: 0 <= i < |envs| && envs[i].name == p[k] { CycleIsDeclared(envs, p, k); }
    var ring := seq(|p|, k requires 0 <= k < |p| => PositionOf(envs, p[k]));
    forall k, m | 0 <= k && m == k + 1 && m < |ring| ensures envs[ring[k]].source == FromEnv(envs[ring[m]].name) {
      assert p[m] in Deps(SourceEdges(envs), p[k]);
      SourceOf(envs, ring[k]);
    }
    assert Ring(envs, ring);
  }

  /** Environments that are all sourced among themselves contain a ring. */
  lemma StuckHasRing(envs: seq<Environment>, among: set<string>)
    requires DistinctEnvs(envs) && Stuck(SourceEdges(envs), among) && among != {}
    ensures HasRing(envs)
  {
    if Acyclic(SourceEdges(envs)) { NoStuckSet(SourceEdges(envs), among); }
    var p :| IsCycle(SourceEdges(envs), p);
    CycleIsRing(envs, p);
  }

  /** Accepts exactly the configurations without a ring of sources, tracked or not, and a
      reported edge lies on one. */
  method ValidateDeployEnvAcyclic(envs: seq<Environment>) returns (err: Option<CycleSearch.Edge>)
    ensures DistinctEnvs(envs) ==> (err.None? <==> !HasRing(envs))
    ensures DistinctEnvs(envs) && err.Some? ==> OnRing(envs, err.value.node, err.value.dep)
    ensures err.None? <==> Acyclic(SourceEdges(envs))
  {
    var source: Edges := map[];
    for k := 0 to |envs|
      invariant source == SourceEdges(envs[..k])
    {
      assert envs[..k + 1][..k] == envs[..k];
      if envs[k].source.FromEnv? { source := source[envs[k].name := [envs[k].source.env]]; }
    }
    assert envs[..|envs|] == envs;
    var names := seq(|envs|, i requires 0 <= i < |envs| => envs[i].name);
    forall n | n in source ensures n in Elements(names) {
      var i :| 0 <= i < |envs| && envs[i].name == n;
      assert names[i] == n;
    }
    err := CycleSearch.FindCycle(names, source);
    if DistinctEnvs(envs) { CyclesAreRings(envs, err); }
  }

  lemma CyclesAreRings(envs: seq<Environment>, err: Option<CycleSearch.Edge>)
    requires DistinctEnvs(envs) && (err.None? <==> Acyclic(SourceEdges(envs)))
    requires err.Some? ==> OnCycle(SourceEdges(envs), err.value.node, err.value.dep)
    ensures err.None? <==> !HasRing(envs)
    ensures err.Some? ==> OnRing(envs, err.value.node, err.value.dep)
  {
    forall ring | Ring(envs, ring) ensures err.Some? { RingIsCycle(envs, ring); }
    if err.Some? {
      var p :| IsCycle(SourceEdges(envs), p) && p[0] == err.value.node && p[1] == err.value.dep;
      CycleIsRing(envs, p);
    }
  }
}
