/** The order a scope's commands are enqueued in (apps/server/src/runs/scopes.ts). */
module Scopes {
  import opened Sorting
  import opened Reachability

  function Ascending(ids: seq<Vertex>): seq<Vertex> {
    Sort(ids, (a: Vertex, b: Vertex) => a <= b)
  }

  /** Needs nothing that is still to be placed. */
  predicate Free(needs: Relation, remaining: seq<Vertex>, id: Vertex) {
    forall d | d in remaining :: (id, d) !in needs
  }

  function Ready(needs: Relation, remaining: seq<Vertex>): (r: seq<Vertex>)
    ensures forall id :: id in r <==> id in remaining && Free(needs, remaining, id)
  {
    var free := Filter(remaining, (id: Vertex) => Free(needs, remaining, id));
    AscendingSame(free);
    Ascending(free)
  }

  function Rest(remaining: seq<Vertex>, placed: seq<Vertex>): (r: seq<Vertex>)
    ensures forall id :: id in r <==> id in remaining && id !in placed
    ensures |r| <= |remaining| && ((exists id :: id in remaining && id in placed) ==> |r| < |remaining|)
  {
    RestShrinks(remaining, placed);
    Filter(remaining, (id: Vertex) => id !in placed)
  }

  lemma {:induction false} RestShrinks(remaining: seq<Vertex>, placed: seq<Vertex>)
    ensures (exists id :: id in remaining && id in placed) ==>
              |Filter(remaining, (id: Vertex) => id !in placed)| < |remaining|
  {
    if remaining != [] {
      RestShrinks(remaining[1..], placed);
    }
  }

  lemma AscendingSame(ids: seq<Vertex>)
    ensures forall id :: id in Ascending(ids) <==> id in ids
  {
    forall id
      ensures id in Ascending(ids) <==> id in ids
    {
      assert id in Ascending(ids) <==> id in multiset(Ascending(ids));
      assert id in ids <==> id in multiset(ids);
    }
  }

  /** Round by round, everything that needs nothing left; what a cycle keeps back goes last, in ascending order. */
  function Ordered(needs: Relation, remaining: seq<Vertex>): seq<Vertex>
    decreases |remaining|
  {
    var ready := Ready(needs, remaining);
    if remaining == [] then []
    else if ready == [] then Ascending(remaining)
    else
      assert ready[0] in ready;
      ready + Ordered(needs, Rest(remaining, ready))
  }

  method Order(needs: Relation, included: seq<Vertex>) returns (ordered: seq<Vertex>)
    requires Distinct(included)
    ensures ordered == Ordered(needs, included)
    ensures Distinct(ordered) && forall id :: id in ordered <==> id in included
    ensures ProducersFirst(needs, ordered) <==> Acyclic(Among(needs, included))
  {
    var remaining := included;
    ordered := [];
    while remaining != []
      invariant Ordered(needs, included) == ordered + Ordered(needs, remaining)
      decreases |remaining|
    {
      var ready := Ready(needs, remaining);
      if ready == [] {
        ordered := ordered + Ascending(remaining);
        break;
      }
      assert ready[0] in ready;
      ordered := ordered + ready;
      remaining := Rest(remaining, ready);
    }
    OrderListsAll(needs, included);
    ProducersFirstIffAcyclic(needs, included);
  }

  // ----- nothing is lost

  lemma AscendingDistinct(ids: seq<Vertex>)
    requires Distinct(ids)
    ensures Distinct(Ascending(ids))
  {
    DistinctReordered(ids, Ascending(ids));
  }

  lemma RoundDistinct(needs: Relation, remaining: seq<Vertex>)
    requires Distinct(remaining)
    ensures Distinct(Ready(needs, remaining)) && Distinct(Rest(remaining, Ready(needs, remaining)))
  {
    var free, ready := Filter(remaining, (id: Vertex) => Free(needs, remaining, id)), Ready(needs, remaining);
    FilterDistinct(remaining, (id: Vertex) => Free(needs, remaining, id));
    AscendingDistinct(free);
    FilterDistinct(remaining, (id: Vertex) => id !in ready);
  }

  /** Every command of the scope is placed, once; a cycle loses none. */
  lemma {:induction false} OrderListsAll(needs: Relation, ids: seq<Vertex>)
    requires Distinct(ids)
    ensures Distinct(Ordered(needs, ids)) && forall id :: id in Ordered(needs, ids) <==> id in ids
    decreases |ids|
  {
    hide Distinct, Ready, Rest;
    var ready := Ready(needs, ids);
    if ids == [] {
      assert Distinct(ids);
    } else {
      AscendingSame(ids);
      AscendingDistinct(ids);
      if ready != [] {
        assert ready[0] in ready;
        RoundDistinct(needs, ids);
        var rest := Rest(ids, ready);
        OrderListsAll(needs, rest);
        Joined(ready, Ordered(needs, rest));
      }
    }
  }

  lemma Joined(xs: seq<Vertex>, ys: seq<Vertex>)
    requires Distinct(xs) && Distinct(ys) && forall x | x in xs :: x !in ys
    ensures Distinct(xs + ys) && forall x :: x in xs + ys <==> x in xs || x in ys
  {
    forall i, j | 0 <= i < j < |xs + ys|
      ensures (xs + ys)[i] != (xs + ys)[j]
    {
      if i < |xs| <= j {
        assert xs[i] in xs && ys[j - |xs|] in ys;
      }
    }
  }

  // ----- producers come first

  /** Whatever a command of the list needs from the list stands before it. */
  ghost predicate ProducersFirst(needs: Relation, ids: seq<Vertex>) {
    forall i, j | 0 <= i < |ids| && 0 <= j < |ids| && (ids[i], ids[j]) in needs :: j < i
  }

  /** The needs between commands of the scope. */
  ghost function Among(needs: Relation, ids: seq<Vertex>): Relation {
    set x | x in needs && x.0 in ids && x.1 in ids
  }

  ghost function Reached(e: Relation, ids: seq<Vertex>, v: Vertex): set<Vertex> {
    set w | w in ids && Reaches(e, v, w)
  }

  /** Following needs in a scope without cycles ends at a command that needs nothing of it. */
  lemma {:induction false} SomeFree(needs: Relation, ids: seq<Vertex>, v: Vertex)
    requires Acyclic(Among(needs, ids)) && v in ids
    ensures exists id :: id in ids && Free(needs, ids, id)
    decreases |Reached(Among(needs, ids), ids, v)|
  {
    var e := Among(needs, ids);
    if !Free(needs, ids, v) {
      var w :| w in ids && (v, w) in needs;
      assert (v, w) in e;
      ReachesSelf(e, v);
      forall x | x in Reached(e, ids, w)
        ensures x in Reached(e, ids, v)
      {
        ReachesStep(e, v, w, x);
      }
      assert v in Reached(e, ids, v) && v !in Reached(e, ids, w);
      SubsetSmaller(Reached(e, ids, w), Reached(e, ids, v), v);
      SomeFree(needs, ids, w);
    }
  }

  lemma SubsetSmaller(a: set<Vertex>, b: set<Vertex>, x: Vertex)
    requires a <= b && x in b && x !in a
    ensures |a| < |b|
  {
    SubsetSize(a, b - {x});
  }

  lemma {:induction false} AcyclicIsOrdered(needs: Relation, ids: seq<Vertex>)
    requires Distinct(ids) && Acyclic(Among(needs, ids))
    ensures ProducersFirst(needs, Ordered(needs, ids))
    decreases |ids|
  {
    if ids != [] {
      SomeFree(needs, ids, ids[0]);
      var ready := Ready(needs, ids);
      var rest := Rest(ids, ready);
      assert ready != [] && ready[0] in ready;
      AcyclicSubset(Among(needs, rest), Among(needs, ids));
      RoundDistinct(needs, ids);
      AcyclicIsOrdered(needs, rest);
      OrderListsAll(needs, rest);
      FreeGoFirst(needs, ids, ready, Ordered(needs, rest));
    }
  }

  lemma FreeGoFirst(needs: Relation, ids: seq<Vertex>, ready: seq<Vertex>, after: seq<Vertex>)
    requires forall id | id in ready :: id in ids && Free(needs, ids, id)
    requires (forall id | id in after :: id in ids) && ProducersFirst(needs, after)
    ensures ProducersFirst(needs, ready + after)
  {
    var all := ready + after;
    forall i, j | 0 <= i < |all| && 0 <= j < |all| && (all[i], all[j]) in needs
      ensures j < i
    {
      assert all[j] in ids && (all[i] in ready ==> Free(needs, ids, all[i]));
      if i >= |ready| && j >= |ready| {
        assert all[i] == after[i - |ready|] && all[j] == after[j - |ready|];
      }
    }
  }

  /** Along a path positions only fall. */
  lemma {:induction false} PathsGoBack(needs: Relation, ids: seq<Vertex>, e: Relation, p: seq<Vertex>, a: nat, b: nat)
    requires ProducersFirst(needs, ids) && e == Among(needs, ids) && IsPath(e, p) && Distinct(ids)
    requires a < |ids| && b < |ids| && p[0] == ids[a] && p[|p| - 1] == ids[b]
    ensures b <= a
    decreases |p|
  {
    if |p| > 1 {
      assert (p[0], p[1]) in e;
      var c :| 0 <= c < |ids| && ids[c] == p[1];
      assert IsPath(e, p[1..]) by {
        forall i | 0 <= i < |p| - 2
          ensures (p[1..][i], p[1..][i + 1]) in e
        {
          assert (p[i + 1], p[i + 2]) in e;
        }
      }
      PathsGoBack(needs, ids, e, p[1..], c, b);
    }
  }

  lemma OrderedIsAcyclic(needs: Relation, ids: seq<Vertex>)
    requires Distinct(ids) && ProducersFirst(needs, ids)
    ensures Acyclic(Among(needs, ids))
  {
    var e := Among(needs, ids);
    forall x, y | (x, y) in e
      ensures !Reaches(e, y, x)
    {
      var a :| 0 <= a < |ids| && ids[a] == x;
      var b :| 0 <= b < |ids| && ids[b] == y;
      if Reaches(e, y, x) {
        var p :| PathBetween(e, p, y, x);
        PathsGoBack(needs, ids, e, p, b, a);
      }
    }
  }

  /** The order puts every producer before its consumers exactly when the scope's own needs have no cycle. */
  lemma ProducersFirstIffAcyclic(needs: Relation, ids: seq<Vertex>)
    requires Distinct(ids)
    ensures ProducersFirst(needs, Ordered(needs, ids)) <==> Acyclic(Among(needs, ids))
  {
    var ordered := Ordered(needs, ids);
    OrderListsAll(needs, ids);
    assert Among(needs, ordered) == Among(needs, ids);
    if Acyclic(Among(needs, ids)) {
      AcyclicIsOrdered(needs, ids);
    }
    if ProducersFirst(needs, ordered) {
      OrderedIsAcyclic(needs, ordered);
    }
  }

  lemma SomeMember(ids: seq<Vertex>)
    ensures ids != [] ==> exists id :: id in ids
  {
    if ids != [] {
      assert ids[0] in ids;
    }
  }

  /**
   * Commands that need nothing of each other are placed in ascending order: the same scope always previews the same
   * way.
   */
  lemma FreeScopeAscends(needs: Relation, ids: seq<Vertex>)
    requires Distinct(ids) && forall a, b | a in ids && b in ids :: (a, b) !in needs
    ensures forall i, j | 0 <= i < j < |Ordered(needs, ids)| :: Ordered(needs, ids)[i] < Ordered(needs, ids)[j]
  {
    var leq := (a: Vertex, b: Vertex) => a <= b;
    if ids != [] {
      var ready := Ready(needs, ids);
      assert ids[0] in ready;
      var rest := Rest(ids, ready);
      SomeMember(rest);
      assert rest == [];
      assert Ordered(needs, ids) == ready;
      RoundDistinct(needs, ids);
      SortIsSorted(Filter(ids, (id: Vertex) => Free(needs, ids, id)), leq);
      forall i, j | 0 <= i < j < |ready|
        ensures ready[i] < ready[j]
      {
        assert leq(ready[i], ready[j]) && ready[i] != ready[j];
      }
    }
  }
}
