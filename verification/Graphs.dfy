/** Finite directed graphs given as a name-to-dependencies map: the shape shared by
    the checks' `after` edges, the deploy nodes' `after` edges and the environments'
    `source env=` edges. */
module Graphs {

  type Edges = map<string, seq<string>>

  /** A name with no entry has no outgoing edges, like a missing key in a Go map. */
  function Deps(e: Edges, n: string): seq<string> {
    if n in e then e[n] else []
  }

  ghost predicate IsPath(e: Edges, p: seq<string>) {
    && |p| > 0
    && forall i, j :: 0 <= i && j == i + 1 && j < |p| ==> p[j] in Deps(e, p[i])
  }

  ghost predicate IsCycle(e: Edges, p: seq<string>) {
    |p| >= 2 && IsPath(e, p) && p[0] == p[|p| - 1]
  }

  ghost predicate Acyclic(e: Edges) {
    forall p :: !IsCycle(e, p)
  }

  /** The edge from u to v lies on a cycle. */
  ghost predicate OnCycle(e: Edges, u: string, v: string) {
    exists p :: IsCycle(e, p) && p[0] == u && p[1] == v
  }

  /** x can be reached from one of the names by following edges. */
  ghost predicate Reachable(e: Edges, names: seq<string>, x: string) {
    exists p :: IsPath(e, p) && p[0] in names && p[|p| - 1] == x
  }

  ghost predicate ClosedUnder(e: Edges, s: set<string>) {
    forall n :: n in s ==> forall d :: d in Deps(e, n) ==> d in s
  }

  /** Every dependency of a listed name is listed before it. */
  ghost predicate Topological(e: Edges, order: seq<string>) {
    forall k :: 0 <= k < |order| ==> forall d :: d in Deps(e, order[k]) ==> d in order[..k]
  }

  ghost function FirstIndex(order: seq<string>, x: string): (r: nat)
    requires x in order
    ensures r < |order| && order[r] == x && x !in order[..r]
  {
    if order[0] == x then 0
    else
      assert order == [order[0]] + order[1..];
      var k := FirstIndex(order[1..], x);
      assert order[..k + 1] == [order[0]] + order[1..][..k];
      k + 1
  }

  /** Along a path the position in a topological order strictly falls. */
  lemma {:induction false} PositionFalls(e: Edges, order: seq<string>, p: seq<string>)
    requires Topological(e, order)
    requires IsPath(e, p) && p[0] in order
    ensures p[|p| - 1] in order
    ensures FirstIndex(order, p[|p| - 1]) + |p| - 1 <= FirstIndex(order, p[0])
    decreases |p|
  {
    if |p| > 1 {
      var k := FirstIndex(order, p[0]);
      assert p[1] in Deps(e, order[k]);
      assert FirstIndex(order, p[1]) < k by {
        var m :| 0 <= m < k && order[m] == p[1];
      }
      PositionFalls(e, order, p[1..]);
    }
  }

  /** A topological order that lists every name with edges rules out every cycle. */
  lemma TopologicalIsAcyclic(e: Edges, order: seq<string>)
    requires Topological(e, order)
    requires forall n :: n in e ==> n in order
    ensures Acyclic(e)
  {
    forall p ensures !IsCycle(e, p) {
      if IsCycle(e, p) {
        assert p[1] in Deps(e, p[0]);
        PositionFalls(e, order, p);
      }
    }
  }

  ghost function Elements(p: seq<string>): set<string> {
    set x | x in p
  }

  lemma ExtendPath(e: Edges, p: seq<string>, d: string)
    requires IsPath(e, p) && d in Deps(e, p[|p| - 1])
    ensures IsPath(e, p + [d])
  {
  }

  lemma SuffixIsPath(e: Edges, p: seq<string>, i: nat)
    requires IsPath(e, p) && i < |p|
    ensures IsPath(e, p[i..])
  {
  }

  /** Every member depends on a member. */
  ghost predicate Stuck(e: Edges, s: set<string>) {
    forall n {:trigger Deps(e, n)} :: n in s ==> exists d :: d in Deps(e, n) && d in s
  }

  /** In a nonempty set where every member depends on a member, walking dependencies
      must come back on itself. */
  lemma {:induction false} StuckSetHasCycle(e: Edges, stuck: set<string>, p: seq<string>)
    requires Stuck(e, stuck)
    requires IsPath(e, p) && Elements(p) <= stuck
    ensures !Acyclic(e)
    decreases stuck - Elements(p)
  {
    var last := p[|p| - 1];
    assert last in Elements(p);
    var d :| d in Deps(e, last) && d in stuck;
    ExtendPath(e, p, d);
    if d in p {
      var i :| 0 <= i < |p| && p[i] == d;
      SuffixIsPath(e, p + [d], i);
      assert IsCycle(e, (p + [d])[i..]);
    } else {
      assert Elements(p + [d]) == Elements(p) + {d};
      StuckSetHasCycle(e, stuck, p + [d]);
    }
  }

  lemma NoStuckSet(e: Edges, stuck: set<string>)
    requires Acyclic(e) && Stuck(e, stuck)
    ensures stuck == {}
  {
    if stuck != {} {
      var n :| n in stuck;
      assert Elements([n]) == {n};
      StuckSetHasCycle(e, stuck, [n]);
    }
  }

  lemma ReachableStep(e: Edges, names: seq<string>, n: string, d: string)
    requires Reachable(e, names, n) && d in Deps(e, n)
    ensures Reachable(e, names, d)
  {
    var p :| IsPath(e, p) && p[0] in names && p[|p| - 1] == n;
    var q := p + [d];
    ExtendPath(e, p, d);
    assert IsPath(e, q) && q[0] in names && q[|q| - 1] == d;
  }

  /** A closed set that holds the start of a path holds its end. */
  lemma {:induction false} ClosedHoldsPath(e: Edges, s: set<string>, p: seq<string>)
    requires ClosedUnder(e, s) && IsPath(e, p) && p[0] in s
    ensures p[|p| - 1] in s
    decreases |p|
  {
    if |p| > 1 {
      assert p[1] in Deps(e, p[0]);
      ClosedHoldsPath(e, s, p[1..]);
    }
  }
}
