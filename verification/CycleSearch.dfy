/** The tri-colour depth-first search behind the three acyclicity checks: checks'
    `after`, deploy nodes' `after`, and environments' `source env=`. */
module CycleSearch {
  import opened Options
  import opened Graphs

  datatype Color = White | Gray | Black

  datatype Edge = Edge(node: string, dep: string)

  class Search {
    const edges: Edges
    ghost const roots: set<string>
    var color: map<string, Color>

    /** Names in the order they turned black. */
    ghost var order: seq<string>

    constructor (edges: Edges, ghost roots: set<string>)
      ensures this.edges == edges && this.roots == roots && color == map[] && order == []
    {
      this.edges := edges;
      this.roots := roots;
      color := map[];
      order := [];
    }

    /** Every name the search can ever meet. */
    ghost function Universe(): set<string> {
      roots + set n, d | n in edges && d in edges[n] :: d
    }

    /** An absent name reads as white, the zero value of the color map. */
    function ColorOf(n: string): Color
      reads this
    {
      if n in color then color[n] else White
    }

    /** The gray names are exactly the current search path, the black names are
        exactly the listed ones, and the list is a topological order. */
    ghost predicate Sound(path: seq<string>)
      reads this
    {
      && color.Keys <= Universe()
      && (forall n :: n in path <==> ColorOf(n) == Gray)
      && (forall n :: n in order <==> ColorOf(n) == Black)
      && (forall n :: n in color ==> color[n] != White)
      && Topological(edges, order)
    }

    method Visit(name: string, ghost path: seq<string>) returns (err: Option<Edge>)
      requires Sound(path)
      requires ColorOf(name) == White && name in Universe()
      requires IsPath(edges, path + [name])
      modifies this
      ensures color.Keys >= old(color.Keys)
      ensures err.None? ==> Sound(path) && name in order && old(order) <= order
      ensures err.Some? ==> OnCycle(edges, err.value.node, err.value.dep)
      decreases Universe() - color.Keys
    {
      Darken(name, path);
      ghost var here := path + [name];
      var deps := Deps(edges, name);
      var k := 0;
      while k < |deps|
        invariant 0 <= k <= |deps|
        invariant color.Keys >= old(color.Keys) + {name}
        invariant Sound(here) && old(order) <= order
        invariant forall d :: d in deps[..k] ==> d in order
      {
        var dep := deps[k];
        assert dep in Deps(edges, name);
        match ColorOf(dep) {
          case Gray =>
            CloseCycle(here, dep);
            return Some(Edge(name, dep));
          case White =>
            assert IsPath(edges, here + [dep]);
            err := Visit(dep, here);
            if err.Some? { return; }
          case Black =>
        }
        assert deps[..k + 1] == deps[..k] + [dep];
        k := k + 1;
      }
      assert deps[..k] == deps;
      Blacken(name, path);
      return None;
    }

    /** A name joins the search path. */
    method Darken(name: string, ghost path: seq<string>)
      requires Sound(path) && ColorOf(name) == White && name in Universe()
      modifies this`color
      ensures Sound(path + [name]) && color == old(color)[name := Gray]
    {
      color := color[name := Gray];
    }

    /** Finishing a name whose dependencies are all black extends the order. */
    method Blacken(name: string, ghost path: seq<string>)
      requires Sound(path + [name]) && name !in path
      requires forall d :: d in Deps(edges, name) ==> d in order
      modifies this
      ensures color == old(color)[name := Black] && order == old(order) + [name]
      ensures Sound(path)
    {
      ghost var before := order;
      assert name in path + [name];
      color := color[name := Black];
      order := order + [name];
      forall n ensures n in order <==> ColorOf(n) == Black {
        assert n in order <==> n in before || n == name;
      }
      forall k | 0 <= k < |order|
        ensures forall d :: d in Deps(edges, order[k]) ==> d in order[..k]
      {
        if k < |before| {
          assert order[k] == before[k] && order[..k] == before[..k];
        } else {
          assert order[..k] == before;
        }
      }
    }

    /** An edge into the gray path closes a cycle through that edge. */
    lemma CloseCycle(here: seq<string>, dep: string)
      requires IsPath(edges, here) && dep in here
      requires dep in Deps(edges, here[|here| - 1])
      ensures OnCycle(edges, here[|here| - 1], dep)
    {
      var i :| 0 <= i < |here| && here[i] == dep;
      var p := [here[|here| - 1]] + here[i..];
      assert IsCycle(edges, p) && p[0] == here[|here| - 1] && p[1] == dep;
    }
  }

  /** The declaration-order driver: every declared name still white is visited. */
  method FindCycle(names: seq<string>, edges: Edges) returns (err: Option<Edge>)
    requires edges.Keys <= Elements(names)
    ensures err.None? <==> Acyclic(edges)
    ensures err.Some? ==> OnCycle(edges, err.value.node, err.value.dep)
  {
    var s := new Search(edges, Elements(names));
    var k := 0;
    while k < |names|
      invariant 0 <= k <= |names|
      invariant fresh(s) && s.edges == edges && s.roots == Elements(names)
      invariant s.Sound([])
      invariant forall n :: n in names[..k] ==> n in s.order
    {
      assert names[k] in Elements(names);
      if s.ColorOf(names[k]) == White {
        assert IsPath(edges, [] + [names[k]]);
        err := s.Visit(names[k], []);
        if err.Some? { return; }
      }
      assert s.ColorOf(names[k]) != Gray;
      assert names[..k + 1] == names[..k] + [names[k]];
      k := k + 1;
    }
    assert names[..k] == names;
    assert forall n :: n in edges ==> n in Elements(names);
    TopologicalIsAcyclic(edges, s.order);
    return None;
  }
}
