/** A revision's declared deploy graph: load-time validation, and the selection of the
    subgraph one environment runs. */
module DeploySpec {
  import opened Options
  import opened Graphs
  import opened Picks
  import CycleSearch

  /** One declared deploy node, in spec order. */
  datatype Node = Node(name: string, after: seq<string>, command: seq<string>, executor: string)

  datatype SpecError =
    | EmptyName
    | ReservedPrefix(name: string)
    | Duplicate(name: string)
    | EmptyCommand(name: string)
    | SelfEdge(name: string)
    | UnknownAfter(name: string, dep: string)
    | DuplicateAfter(name: string, dep: string)
    | DependencyCycle(name: string, dep: string)

  datatype Selection = Selected(nodes: seq<Node>) | NoSuchNode(name: string)

  function NamesOf(ds: seq<Node>): (s: set<string>)
    ensures forall n :: n in s <==> exists i :: 0 <= i < |ds| && ds[i].name == n
  {
    set i | 0 <= i < |ds| :: ds[i].name
  }

  /** The `after` graph; a later declaration of the same name overwrites an earlier one. */
  function EdgesOf(ds: seq<Node>): (e: Edges)
    ensures e.Keys == NamesOf(ds)
  {
    if ds == [] then map[]
    else
      var d := ds[|ds| - 1];
      var rest := ds[..|ds| - 1];
      var e := EdgesOf(rest)[d.name := d.after];
      assert forall n :: n in NamesOf(ds) <==> n in NamesOf(rest) || n == d.name by {
        assert ds[|ds| - 1].name == d.name;
        forall n | n in NamesOf(rest) ensures n in NamesOf(ds) {
          var i :| 0 <= i < |rest| && rest[i].name == n;
          assert ds[i].name == n;
        }
        forall n | n in NamesOf(ds) && n != d.name ensures n in NamesOf(rest) {
          var i :| 0 <= i < |ds| && ds[i].name == n;
          assert rest[i].name == n;
        }
      }
      e
  }

  predicate DistinctNames(ds: seq<Node>) {
    forall i, j :: 0 <= i < j < |ds| ==> ds[i].name != ds[j].name
  }

  predicate ReservedName(n: string) {
    "image:" <= n || "receipt:" <= n
  }

  ghost predicate AfterOk(ds: seq<Node>, d: Node) {
    && (forall a :: a in d.after ==> a != d.name && a in NamesOf(ds))
    && (forall x, y :: 0 <= x < y < |d.after| ==> d.after[x] != d.after[y])
  }

  /** What a deploy spec has to satisfy to be loaded at all. */
  ghost predicate Accepted(ds: seq<Node>) {
    && (forall i :: 0 <= i < |ds| ==> ds[i].name != "" && !("image:" <= ds[i].name) && !("receipt:" <= ds[i].name))
    && DistinctNames(ds)
    && (forall i :: 0 <= i < |ds| ==> ds[i].command != [] && AfterOk(ds, ds[i]))
    && Acyclic(EdgesOf(ds))
  }

  /** What the graph scheduler relies on to get to every node... */
  ghost predicate Orderly(ds: seq<Node>) {
    && DistinctNames(ds)
    && (forall i :: 0 <= i < |ds| ==> forall a :: a in ds[i].after ==> a in NamesOf(ds))
    && Acyclic(EdgesOf(ds))
  }

  /** ... and to give it a verdict by name. */
  ghost predicate Schedulable(ds: seq<Node>) {
    Orderly(ds) && forall i :: 0 <= i < |ds| ==> ds[i].name != ""
  }

  /** The reported error is a defect the spec really has. */
  ghost predicate Justified(ds: seq<Node>, err: SpecError) {
    match err
    case EmptyName => exists i :: 0 <= i < |ds| && ds[i].name == ""
    case ReservedPrefix(n) => n in NamesOf(ds) && ReservedName(n)
    case Duplicate(n) => exists i, j :: 0 <= i < j < |ds| && ds[i].name == n && ds[j].name == n
    case EmptyCommand(n) => exists i :: 0 <= i < |ds| && ds[i].name == n && ds[i].command == []
    case SelfEdge(n) => exists i :: 0 <= i < |ds| && ds[i].name == n && n in ds[i].after
    case UnknownAfter(n, a) =>
      a !in NamesOf(ds) && exists i :: 0 <= i < |ds| && ds[i].name == n && a in ds[i].after
    case DuplicateAfter(n, a) =>
      exists i, x, y :: 0 <= i < |ds| && 0 <= x < y < |ds[i].after|
                        && ds[i].name == n && ds[i].after[x] == a && ds[i].after[y] == a
    case DependencyCycle(n, a) => OnCycle(EdgesOf(ds), n, a)
  }

  /** First pass: every name is present, unreserved and new. */
  method CheckNames(ds: seq<Node>) returns (err: Option<SpecError>, seen: set<string>)
    ensures err.None? ==> seen == NamesOf(ds)
    ensures err.None? <==>
            DistinctNames(ds) && forall i :: 0 <= i < |ds| ==> ds[i].name != "" && !ReservedName(ds[i].name)
    ensures err.Some? ==> Justified(ds, err.value)
  {
    seen := {};
    for k := 0 to |ds|
      invariant seen == NamesOf(ds[..k]) && DistinctNames(ds[..k])
      invariant forall i :: 0 <= i < k ==> ds[i].name != "" && !ReservedName(ds[i].name)
    {
      var n := ds[k].name;
      if n == "" { return Some(EmptyName), seen; }
      if ReservedName(n) { return Some(ReservedPrefix(n)), seen; }
      if n in seen {
        var i :| 0 <= i < k && ds[..k][i].name == n;
        assert ds[i].name == n && ds[k].name == n;
        return Some(Duplicate(n)), seen;
      }
      NamesOfSnoc(ds, k);
      forall i | 0 <= i < k ensures ds[i].name != n {
        assert ds[..k][i].name in NamesOf(ds[..k]);
      }
      seen := seen + {n};
    }
    assert ds[..|ds|] == ds;
    return None, seen;
  }

  lemma NamesOfSnoc(ds: seq<Node>, k: nat)
    requires k < |ds|
    ensures NamesOf(ds[..k + 1]) == NamesOf(ds[..k]) + {ds[k].name}
  {
    var xs, ys := ds[..k + 1], ds[..k];
    assert xs[k].name == ds[k].name;
    forall n | n in NamesOf(xs) && n != ds[k].name ensures n in NamesOf(ys) {
      var i :| 0 <= i < |xs| && xs[i].name == n;
      assert ys[i].name == n;
    }
    forall n | n in NamesOf(ys) ensures n in NamesOf(xs) {
      var i :| 0 <= i < |ys| && ys[i].name == n;
      assert xs[i].name == n;
    }
  }

  /** Second pass, one node: no self edge, no unknown name, no repeated name. */
  method CheckAfter(ds: seq<Node>, k: nat, seen: set<string>) returns (err: Option<SpecError>)
    requires k < |ds| && seen == NamesOf(ds)
    ensures err.None? <==> AfterOk(ds, ds[k])
    ensures err.Some? ==> Justified(ds, err.value)
  {
    var d := ds[k];
    var seenAfter: set<string> := {};
    for j := 0 to |d.after|
      invariant seenAfter == Elements(d.after[..j])
      invariant forall x :: 0 <= x < j ==> d.after[x] != d.name && d.after[x] in seen
      invariant forall x, y :: 0 <= x < y < j ==> d.after[x] != d.after[y]
    {
      var a := d.after[j];
      assert a in d.after;
      if a == d.name { return Some(SelfEdge(d.name)); }
      if a !in seen { return Some(UnknownAfter(d.name, a)); }
      if a in seenAfter {
        var x :| 0 <= x < j && d.after[..j][x] == a;
        assert d.after[x] == a && ds[k].name == d.name;
        return Some(DuplicateAfter(d.name, a));
      }
      forall x | 0 <= x < j ensures d.after[x] != a {
        assert d.after[..j][x] in seenAfter;
      }
      assert d.after[..j + 1] == d.after[..j] + [a];
      seenAfter := seenAfter + {a};
    }
    return None;
  }

  method ValidateDeploys(ds: seq<Node>) returns (err: Option<SpecError>)
    ensures err.None? <==> Accepted(ds)
    ensures err.Some? ==> Justified(ds, err.value)
  {
    var seen;
    err, seen := CheckNames(ds);
    if err.Some? { return; }
    for k := 0 to |ds|
      invariant forall i :: 0 <= i < k ==> ds[i].command != [] && AfterOk(ds, ds[i])
    {
      if ds[k].command == [] { return Some(EmptyCommand(ds[k].name)); }
      err := CheckAfter(ds, k, seen);
      if err.Some? { return; }
    }
    var edge := ValidateDeployAcyclic(ds);
    if edge.Some? { return Some(DependencyCycle(edge.value.node, edge.value.dep)); }
    return None;
  }

  method ValidateDeployAcyclic(ds: seq<Node>) returns (err: Option<CycleSearch.Edge>)
    ensures err.None? <==> Acyclic(EdgesOf(ds))
    ensures err.Some? ==> OnCycle(EdgesOf(ds), err.value.node, err.value.dep)
  {
    var edges: Edges := map[];
    for k := 0 to |ds|
      invariant edges == EdgesOf(ds[..k])
    {
      assert ds[..k + 1][..k] == ds[..k];
      edges := edges[ds[k].name := ds[k].after];
    }
    assert ds[..|ds|] == ds;
    var names := seq(|ds|, i requires 0 <= i < |ds| => ds[i].name);
    assert Elements(names) == NamesOf(ds) by {
      forall n | n in NamesOf(ds) ensures n in names {
        var i :| 0 <= i < |ds| && ds[i].name == n;
        assert names[i] == n;
      }
    }
    err := CycleSearch.FindCycle(names, edges);
  }

  /** The nodes whose name is wanted, in declaration order. */
  function Restrict(ds: seq<Node>, wanted: set<string>): seq<Node> {
    if ds == [] then []
    else
      var d := ds[|ds| - 1];
      Restrict(ds[..|ds| - 1], wanted) + if d.name in wanted then [d] else []
  }

  lemma {:induction false} RestrictMembers(ds: seq<Node>, wanted: set<string>)
    ensures forall d :: d in Restrict(ds, wanted) <==> d in ds && d.name in wanted
  {
    if ds != [] {
      RestrictMembers(ds[..|ds| - 1], wanted);
      assert ds == ds[..|ds| - 1] + [ds[|ds| - 1]];
    }
  }

  /** The recursive pull behind a selection; `wanted` grows as names are pulled in. */
  class Closure {
    const edges: Edges
    var wanted: set<string>

    constructor (edges: Edges)
      ensures this.edges == edges && wanted == {}
    {
      this.edges := edges;
      wanted := {};
    }

    /** Only names whose pull is still open may miss a dependency. */
    ghost predicate Sound(names: seq<string>, open: set<string>)
      reads this
    {
      && wanted <= edges.Keys
      && (forall n :: n in wanted ==> Reachable(edges, names, n))
      && (forall n :: n in wanted && n !in open ==> forall d :: d in Deps(edges, n) ==> d in wanted)
    }

    method Pull(name: string, ghost names: seq<string>, ghost open: set<string>) returns (missing: Option<string>)
      requires Sound(names, open) && Reachable(edges, names, name)
      modifies this
      ensures wanted >= old(wanted)
      ensures missing.None? ==> Sound(names, open) && name in wanted
      ensures missing.Some? ==> missing.value !in edges && Reachable(edges, names, missing.value)
      decreases edges.Keys - wanted
    {
      if name in wanted { return None; }
      if name !in edges { return Some(name); }
      wanted := wanted + {name};
      var deps := edges[name];
      for k := 0 to |deps|
        invariant wanted >= old(wanted) + {name}
        invariant Sound(names, open + {name})
        invariant forall d :: d in deps[..k] ==> d in wanted
      {
        assert deps[k] in Deps(edges, name);
        ReachableStep(edges, names, name, deps[k]);
        missing := Pull(deps[k], names, open + {name});
        if missing.Some? { return; }
        assert deps[..k + 1] == deps[..k] + [deps[k]];
      }
      assert deps[..|deps|] == deps;
      return None;
    }
  }

  /** Pulls every requested name in turn. */
  method PullAll(edges: Edges, names: seq<string>) returns (missing: Option<string>, wanted: set<string>)
    ensures missing.None? ==> IsLeastClosure(edges, names, wanted) && wanted <= edges.Keys
    ensures missing.Some? ==> missing.value !in edges && Reachable(edges, names, missing.value)
  {
    var c := new Closure(edges);
    for k := 0 to |names|
      invariant fresh(c) && c.edges == edges
      invariant c.Sound(names, {})
      invariant forall n :: n in names[..k] ==> n in c.wanted
    {
      var p := [names[k]];
      assert IsPath(edges, p) && p[0] in names && p[|p| - 1] == names[k];
      missing := c.Pull(names[k], names, {});
      if missing.Some? { return missing, {}; }
      assert names[..k + 1] == names[..k] + [names[k]];
    }
    assert names[..|names|] == names;
    ReachableIsLeast(edges, names, c.wanted);
    return None, c.wanted;
  }

  method SelectDeployNodes(ds: seq<Node>, names: seq<string>) returns (r: Selection)
    ensures r.Selected? ==> IsSelection(ds, names, r.nodes)
    ensures names == [] ==> r.Selected?
    ensures names != [] ==>
            (r.NoSuchNode? <==> exists x :: Reachable(EdgesOf(ds), names, x) && x !in NamesOf(ds))
    ensures names != [] && r.NoSuchNode? ==>
            r.name !in NamesOf(ds) && Reachable(EdgesOf(ds), names, r.name)
  {
    if names == [] { return Selected(ds); }
    var missing, wanted := PullAll(EdgesOf(ds), names);
    match missing
    case Some(name) => return NoSuchNode(name);
    case None =>
      RestrictPicks(ds, wanted, Restrict(ds, wanted));
      return Selected(Restrict(ds, wanted));
  }

  /** w is the smallest set that holds the names and is closed under `after`. */
  ghost predicate IsLeastClosure(e: Edges, names: seq<string>, w: set<string>) {
    && (forall n :: n in names ==> n in w)
    && ClosedUnder(e, w)
    && (forall x :: x in w <==> Reachable(e, names, x))
    && (forall other: set<string> :: (forall n :: n in names ==> n in other) && ClosedUnder(e, other) ==> w <= other)
  }

  ghost function NodesNamed(ds: seq<Node>, w: set<string>): set<Node> {
    set d | d in ds && d.name in w
  }

  lemma RestrictPicksSnoc(ds: seq<Node>, d: Node, w: set<string>, kept: set<Node>)
    requires d in kept <==> d.name in w
    requires PicksInOrder(ds, Restrict(ds, w), kept)
    ensures PicksInOrder(ds + [d], Restrict(ds + [d], w), kept)
  {
    RestrictSnoc(ds, d, w);
    PicksSnoc(ds, Restrict(ds, w), kept, d);
  }

  lemma {:induction false} RestrictSame(ds: seq<Node>, w: set<string>, kept: set<Node>)
    requires forall k :: 0 <= k < |ds| ==> (ds[k] in kept <==> ds[k].name in w)
    ensures PicksInOrder(ds, Restrict(ds, w), kept)
  {
    if ds == [] {
      PicksNothing(kept);
    } else {
      var k := |ds| - 1;
      RestrictSame(ds[..k], w, kept);
      RestrictPicksSnoc(ds[..k], ds[k], w, kept);
      assert ds[..k] + [ds[k]] == ds;
    }
  }

  /** Restricting picks the wanted nodes in declaration order, and is the only such list. */
  lemma RestrictPicks(ds: seq<Node>, w: set<string>, nodes: seq<Node>)
    ensures PicksInOrder(ds, nodes, NodesNamed(ds, w)) <==> nodes == Restrict(ds, w)
  {
    RestrictSame(ds, w, NodesNamed(ds, w));
    if PicksInOrder(ds, nodes, NodesNamed(ds, w)) { PicksAreUnique(ds, nodes, Restrict(ds, w), NodesNamed(ds, w)); }
  }

  /** What a selection means: everything for an empty request, else exactly the nodes in
      the requested names' least closure, all of them declared, in declaration order. */
  ghost predicate IsSelection(ds: seq<Node>, names: seq<string>, nodes: seq<Node>) {
    if names == [] then nodes == ds
    else exists w: set<string> ::
           w <= NamesOf(ds) && IsLeastClosure(EdgesOf(ds), names, w) && PicksInOrder(ds, nodes, NodesNamed(ds, w))
  }

  lemma LeastIsUnique(e: Edges, names: seq<string>, v: set<string>, w: set<string>)
    requires IsLeastClosure(e, names, v) && IsLeastClosure(e, names, w)
    ensures v == w
  {
  }

  /** The closure a selection is made of. */
  ghost function ClosureOf(ds: seq<Node>, names: seq<string>, nodes: seq<Node>): (w: set<string>)
    requires names != [] && IsSelection(ds, names, nodes)
    ensures w <= NamesOf(ds) && IsLeastClosure(EdgesOf(ds), names, w) && PicksInOrder(ds, nodes, NodesNamed(ds, w))
  {
    var w: set<string> :|
      w <= NamesOf(ds) && IsLeastClosure(EdgesOf(ds), names, w) && PicksInOrder(ds, nodes, NodesNamed(ds, w));
    w
  }

  lemma SelectionIsUnique(ds: seq<Node>, names: seq<string>, nodes: seq<Node>, others: seq<Node>)
    requires IsSelection(ds, names, nodes) && IsSelection(ds, names, others)
    ensures nodes == others
  {
    if names != [] {
      var v, w := ClosureOf(ds, names, nodes), ClosureOf(ds, names, others);
      LeastIsUnique(EdgesOf(ds), names, v, w);
      PicksAreUnique(ds, nodes, others, NodesNamed(ds, v));
    }
  }

  /** There is a selection only if every name it reaches is declared. */
  lemma SelectionIsDeclared(ds: seq<Node>, names: seq<string>, nodes: seq<Node>, x: string)
    requires names != [] && IsSelection(ds, names, nodes) && Reachable(EdgesOf(ds), names, x)
    ensures x in NamesOf(ds)
  {
    var w: set<string> :| w <= NamesOf(ds) && IsLeastClosure(EdgesOf(ds), names, w) && PicksInOrder(ds, nodes, NodesNamed(ds, w));
    assert x in w;
  }

  lemma ReachableIsLeast(e: Edges, names: seq<string>, w: set<string>)
    requires forall n :: n in names ==> n in w
    requires ClosedUnder(e, w)
    requires forall x :: x in w ==> Reachable(e, names, x)
    ensures IsLeastClosure(e, names, w)
  {
    forall x, other: set<string> | Reachable(e, names, x) && (forall n :: n in names ==> n in other) && ClosedUnder(e, other)
      ensures x in other
    {
      var p :| IsPath(e, p) && p[0] in names && p[|p| - 1] == x;
      ClosedHoldsPath(e, other, p);
    }
  }

  lemma EdgesOfSnoc(ds: seq<Node>, d: Node)
    ensures EdgesOf(ds + [d]) == EdgesOf(ds)[d.name := d.after]
  {
    assert (ds + [d])[..|ds|] == ds;
  }

  lemma RestrictSnoc(ds: seq<Node>, d: Node, w: set<string>)
    ensures Restrict(ds + [d], w) == if d.name in w then Restrict(ds, w) + [d] else Restrict(ds, w)
  {
    assert (ds + [d])[..|ds|] == ds;
    assert Restrict(ds, w) + [] == Restrict(ds, w);
  }

  lemma RestrictedEdgesSnoc(ds: seq<Node>, d: Node, w: set<string>)
    requires EdgesOf(Restrict(ds, w)) == Wanted(EdgesOf(ds), w)
    ensures EdgesOf(Restrict(ds + [d], w)) == Wanted(EdgesOf(ds + [d]), w)
  {
    RestrictSnoc(ds, d, w);
    EdgesOfSnoc(ds, d);
    EdgesOfSnoc(Restrict(ds, w), d);
    WantedUpdate(EdgesOf(ds), w, d.name, d.after);
  }

  function Wanted(e: Edges, w: set<string>): Edges {
    map n | n in e && n in w :: e[n]
  }

  lemma WantedUpdate(e: Edges, w: set<string>, n: string, after: seq<string>)
    ensures Wanted(e[n := after], w) == if n in w then Wanted(e, w)[n := after] else Wanted(e, w)
  {
  }

  /** Restricting to wanted names keeps exactly their edges. */
  lemma {:induction false} RestrictKeepsEdges(ds: seq<Node>, w: set<string>)
    ensures EdgesOf(Restrict(ds, w)) == Wanted(EdgesOf(ds), w)
  {
    if ds == [] {
      assert Restrict(ds, w) == [];
    } else {
      var d, rest := ds[|ds| - 1], ds[..|ds| - 1];
      RestrictKeepsEdges(rest, w);
      RestrictedEdgesSnoc(rest, d, w);
      assert ds == rest + [d];
    }
  }

  lemma RestrictKeepsDeps(ds: seq<Node>, w: set<string>)
    ensures NamesOf(Restrict(ds, w)) == NamesOf(ds) * w
    ensures forall n :: n in w ==> Deps(EdgesOf(Restrict(ds, w)), n) == Deps(EdgesOf(ds), n)
  {
    RestrictKeepsEdges(ds, w);
    assert NamesOf(ds) == EdgesOf(ds).Keys && NamesOf(Restrict(ds, w)) == EdgesOf(Restrict(ds, w)).Keys;
  }

  lemma {:induction false} RestrictIsDistinct(ds: seq<Node>, w: set<string>)
    requires DistinctNames(ds)
    ensures DistinctNames(Restrict(ds, w))
  {
    if ds != [] {
      var d, rest := ds[|ds| - 1], ds[..|ds| - 1];
      RestrictIsDistinct(rest, w);
      RestrictMembers(rest, w);
      var r := Restrict(rest, w);
      forall i | 0 <= i < |r| ensures r[i].name != d.name {
        assert r[i] in rest;
      }
    }
  }

  lemma RestrictIsAcyclic(ds: seq<Node>, w: set<string>)
    requires Acyclic(EdgesOf(ds))
    ensures Acyclic(EdgesOf(Restrict(ds, w)))
  {
    var e, sub := EdgesOf(ds), EdgesOf(Restrict(ds, w));
    RestrictKeepsDeps(ds, w);
    forall p ensures !IsCycle(sub, p) {
      if IsCycle(sub, p) {
        forall i, j | 0 <= i && j == i + 1 && j < |p| ensures p[j] in Deps(e, p[i]) {
          assert p[j] in Deps(sub, p[i]);
          assert p[i] in w;
        }
        assert IsCycle(e, p);
      }
    }
  }

  lemma RestrictIsClosed(ds: seq<Node>, w: set<string>, d: Node, a: string)
    requires DistinctNames(ds) && ClosedUnder(EdgesOf(ds), w)
    requires d in Restrict(ds, w) && AfterOk(ds, d) && a in d.after
    ensures a in NamesOf(Restrict(ds, w))
  {
    RestrictKeepsDeps(ds, w);
    RestrictMembers(ds, w);
    var k :| 0 <= k < |ds| && ds[k] == d;
    DepsOfNode(ds, k);
    assert a in Deps(EdgesOf(ds), d.name);
  }

  /** Whatever subgraph an environment selects from an accepted spec, the scheduler can
      finish it: names stay distinct, edges stay inside, and no cycle appears. */
  lemma SelectionIsSchedulable(ds: seq<Node>, w: set<string>)
    requires Accepted(ds) && ClosedUnder(EdgesOf(ds), w)
    ensures Schedulable(Restrict(ds, w))
  {
    var r := Restrict(ds, w);
    RestrictMembers(ds, w);
    RestrictIsDistinct(ds, w);
    RestrictIsAcyclic(ds, w);
    forall i | 0 <= i < |r| ensures r[i].name != "" && forall a :: a in r[i].after ==> a in NamesOf(r) {
      assert r[i] in ds;
      var k :| 0 <= k < |ds| && ds[k] == r[i];
      forall a | a in r[i].after ensures a in NamesOf(r) { RestrictIsClosed(ds, w, r[i], a); }
    }
  }

  lemma AcceptedSelectionIsSchedulable(ds: seq<Node>, names: seq<string>, nodes: seq<Node>)
    requires Accepted(ds) && IsSelection(ds, names, nodes)
    ensures Schedulable(nodes)
  {
    if names == [] {
      forall i | 0 <= i < |ds| ensures forall a :: a in ds[i].after ==> a in NamesOf(ds) { assert AfterOk(ds, ds[i]); }
    } else {
      var w: set<string> :| w <= NamesOf(ds) && IsLeastClosure(EdgesOf(ds), names, w) && PicksInOrder(ds, nodes, NodesNamed(ds, w));
      RestrictPicks(ds, w, nodes);
      SelectionIsSchedulable(ds, w);
    }
  }

  /** With distinct names, the graph's edges at a node are that node's `after`. */
  lemma {:induction false} DepsOfNode(ds: seq<Node>, k: nat)
    requires DistinctNames(ds) && k < |ds|
    ensures Deps(EdgesOf(ds), ds[k].name) == ds[k].after
  {
    var rest := ds[..|ds| - 1];
    if k < |rest| {
      DepsOfNode(rest, k);
      assert rest[k] == ds[k];
    }
  }
}
