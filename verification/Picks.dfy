/** Choosing some elements of a list and keeping their order. */
module Picks {

  /** `picked` is what `all` holds at the positions `at`, which ascend and are exactly the
      positions of kept elements. */
  ghost predicate PicksAt<T>(all: seq<T>, picked: seq<T>, at: seq<nat>, kept: set<T>) {
    && |at| == |picked|
    && (forall k :: 0 <= k < |at| ==> at[k] < |all| && picked[k] == all[at[k]] && picked[k] in kept)
    && (forall k, m :: 0 <= k < m < |at| ==> at[k] < at[m])
    && (forall i: nat :: i < |all| && all[i] in kept ==> i in at)
  }

  /** The kept elements of `all`, each occurrence once, in the order of `all`. */
  ghost predicate PicksInOrder<T>(all: seq<T>, picked: seq<T>, kept: set<T>) {
    exists at: seq<nat> :: PicksAt(all, picked, at, kept)
  }

  lemma PicksNothing<T>(kept: set<T>)
    ensures PicksInOrder([], [], kept)
  {
    assert PicksAt([], [], [], kept);
  }

  lemma KeepLast<T>(all: seq<T>, picked: seq<T>, at: seq<nat>, kept: set<T>, x: T)
    requires PicksAt(all, picked, at, kept) && x in kept
    ensures PicksAt(all + [x], picked + [x], at + [|all|], kept)
  {
    var more: seq<nat> := at + [|all|];
    forall i: nat | i < |all + [x]| && (all + [x])[i] in kept ensures i in more {
      if i < |all| {
        assert all[i] in kept;
        var k :| 0 <= k < |at| && at[k] == i;
        assert more[k] == i;
      } else {
        assert more[|at|] == i;
      }
    }
  }

  lemma SkipLast<T>(all: seq<T>, picked: seq<T>, at: seq<nat>, kept: set<T>, x: T)
    requires PicksAt(all, picked, at, kept) && x !in kept
    ensures PicksAt(all + [x], picked, at, kept)
  {
    forall i: nat | i < |all + [x]| && (all + [x])[i] in kept ensures i in at {
      assert all[i] in kept;
    }
  }

  lemma PicksSnoc<T>(all: seq<T>, picked: seq<T>, kept: set<T>, x: T)
    requires PicksInOrder(all, picked, kept)
    ensures PicksInOrder(all + [x], if x in kept then picked + [x] else picked, kept)
  {
    var at: seq<nat> :| PicksAt(all, picked, at, kept);
    if x in kept { KeepLast(all, picked, at, kept, x); } else { SkipLast(all, picked, at, kept, x); }
  }

  /** The positions are determined up to k. */
  lemma {:induction false} SamePositions<T>(all: seq<T>, p: seq<T>, at: seq<nat>, q: seq<T>, bt: seq<nat>, kept: set<T>, k: nat)
    requires PicksAt(all, p, at, kept) && PicksAt(all, q, bt, kept) && k <= |at|
    ensures k <= |bt| && forall m :: 0 <= m < k ==> at[m] == bt[m]
  {
    if k > 0 {
      SamePositions(all, p, at, q, bt, kept, k - 1);
      var i := at[k - 1];
      assert all[i] == p[k - 1] && i in bt;
      var m :| 0 <= m < |bt| && bt[m] == i;
      assert m >= k - 1;
      var j := bt[k - 1];
      assert all[j] == q[k - 1] && j in at;
      var n :| 0 <= n < |at| && at[n] == j;
      assert n >= k - 1;
    }
  }

  /** There is only one way to pick. */
  lemma PicksAreUnique<T>(all: seq<T>, p: seq<T>, q: seq<T>, kept: set<T>)
    requires PicksInOrder(all, p, kept) && PicksInOrder(all, q, kept)
    ensures p == q
  {
    var at: seq<nat> :| PicksAt(all, p, at, kept);
    var bt: seq<nat> :| PicksAt(all, q, bt, kept);
    SamePositions(all, p, at, q, bt, kept, |at|);
    SamePositions(all, q, bt, p, at, kept, |bt|);
  }
}
