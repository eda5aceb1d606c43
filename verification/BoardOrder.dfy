/** Assembly order: which lists `reorderContextInputs` accepts, when its writes collide, and what it leaves. */
module BoardOrder {
  import opened Sorting
  import opened Edges
  import opened Board

  function Ordinal(e: EdgeRow): int {
    if e.kind.Context? then e.kind.ordinal else 0
  }

  predicate ByOrdinal(a: EdgeRow, b: EdgeRow) {
    Ordinal(a) <= Ordinal(b)
  }

  function InputRows(edges: seq<EdgeRow>, n: NodeId): seq<EdgeRow> {
    Filter(edges, (e: EdgeRow) => e.LiveContext() && e.to == n)
  }

  /** Context inputs in assembly order. */
  function ContextInputs(edges: seq<EdgeRow>, n: NodeId): seq<EdgeRow> {
    Sort(InputRows(edges, n), ByOrdinal)
  }

  /** Each input appears exactly once, and nothing else appears. */
  ghost predicate Permutes(edges: seq<EdgeRow>, n: NodeId, ids: seq<Id>) {
    Distinct(ids) && forall x :: x in ids <==> IsInput(edges, n, x)
  }

  /** The two tests the store makes, every input present and the lengths equal, accept exactly the permutations. */
  lemma AcceptsExactlyPermutations(edges: seq<EdgeRow>, n: NodeId, ids: seq<Id>)
    requires EdgeKeys(edges)
    ensures ListsEveryInput(edges, n, ids) <==> Permutes(edges, n, ids)
  {
    var inputs := InputIds(edges, n);
    forall x
      ensures x in inputs <==> IsInput(edges, n, x)
    {
    }
    if ListsEveryInput(edges, n, ids) {
      ListsAllOnce(ids, inputs);
      forall x | x in ids
        ensures x in inputs
      {
        assert x in Members(ids);
      }
    }
    if Permutes(edges, n, ids) {
      assert inputs == Members(ids);
      DistinctSize(ids);
    }
  }

  /** The ordinal a row has after `k` writes of a pass. */
  lemma {:induction false} PassAt(edges: seq<EdgeRow>, ids: seq<Id>, k: nat, sign: int, i: nat)
    requires k <= |ids| && i < |edges| && Distinct(ids)
    ensures var r := Pass(edges, ids, k, sign);
            && (forall j | 0 <= j < k && ids[j] == edges[i].id && edges[i].kind.Context? ::
                  r[i] == edges[i].(kind := edges[i].kind.(ordinal := sign * (j + 1))))
            && (edges[i].id !in ids[..k] || !edges[i].kind.Context? ==> r[i] == edges[i])
  {
    if k > 0 {
      PassAt(edges, ids, k - 1, sign, i);
      assert ids[..k] == ids[..k - 1] + [ids[k - 1]];
    }
  }

  /** The input listed at `j` already sits on the ordinal that position `i` is about to take. */
  ghost predicate Sits(edges: seq<EdgeRow>, ids: seq<Id>, sign: int, i: nat, j: nat)
    requires j < |ids|
  {
    exists a | 0 <= a < |edges| ::
        edges[a].id == ids[j] && edges[a].LiveContext() && edges[a].kind.ordinal == sign * (i + 1)
  }

  /** An input listed later already sits on the negative ordinal of an earlier position. */
  ghost predicate Blocks(edges: seq<EdgeRow>, ids: seq<Id>) {
    exists i: nat, j: nat | i < j < |ids| :: Sits(edges, ids, -1, i, j)
  }

  lemma ListedIsInput(edges: seq<EdgeRow>, n: NodeId, ids: seq<Id>, i: nat)
    requires EdgeKeys(edges) && Permutes(edges, n, ids) && i < |edges| && edges[i].id in ids
    ensures edges[i].LiveContext() && edges[i].to == n
  {
    assert IsInput(edges, n, edges[i].id);
    var m :| 0 <= m < |edges| && edges[m].id == edges[i].id && edges[m].LiveContext() && edges[m].to == n;
    assert m == i;
  }

  /** A row of the table after `k` writes: an input numbered so far, an input still to come, or no input at all. */
  lemma RowAfter(edges: seq<EdgeRow>, n: NodeId, ids: seq<Id>, k: nat, sign: int, i: nat) returns (j: nat)
    requires EdgeKeys(edges) && Permutes(edges, n, ids) && k <= |ids| && i < |edges|
    ensures edges[i].LiveContext() && edges[i].to == n <==> j < |ids|
    ensures j < |ids| ==> ids[j] == edges[i].id
    ensures Pass(edges, ids, k, sign)[i] == if j < k then edges[i].(kind := edges[i].kind.(ordinal := sign * (j + 1)))
        else edges[i]
  {
    PassAt(edges, ids, k, sign, i);
    if edges[i].LiveContext() && edges[i].to == n {
      assert IsInput(edges, n, edges[i].id);
      j :| 0 <= j < |ids| && ids[j] == edges[i].id;
    } else {
      j := |ids|;
      if edges[i].id in ids {
        ListedIsInput(edges, n, ids, i);
      }
    }
  }

  /** One write of a pass meets the indexes as long as no two inputs it leaves share an ordinal. */
  lemma WriteMeetsIndexes(edges: seq<EdgeRow>, n: NodeId, ids: seq<Id>, k: nat, sign: int)
    requires EdgeKeys(edges) && LiveIndexes(edges) && Permutes(edges, n, ids) && k <= |ids| && sign != 0
    requires forall i: nat, j: nat | i < k <= j < |ids| :: !Sits(edges, ids, sign, i, j)
    ensures LiveIndexes(Pass(edges, ids, k, sign))
  {
    var r := Pass(edges, ids, k, sign);
    forall a, b | 0 <= a < b < |r| && r[a].LiveContext() && r[b].LiveContext() && r[a].to == r[b].to
      ensures r[a].from != r[b].from && r[a].kind.ordinal != r[b].kind.ordinal
    {
      var x := RowAfter(edges, n, ids, k, sign, a);
      var y := RowAfter(edges, n, ids, k, sign, b);
      if x < k && y < k {
        Scaled(sign, x + 1, y + 1);
      } else if x < k {
        assert !Sits(edges, ids, sign, x, y);
      } else if y < k {
        assert !Sits(edges, ids, sign, y, x);
      }
    }
  }

  lemma Scaled(sign: int, x: int, y: int)
    requires sign != 0 && x != y
    ensures sign * x != sign * y
  {
    assert sign * (x - y) != 0;
  }

  lemma LiveIndexPair(edges: seq<EdgeRow>, a: nat, b: nat)
    requires LiveIndexes(edges) && a < |edges| && b < |edges| && a != b
    requires edges[a].LiveContext() && edges[b].LiveContext() && edges[a].to == edges[b].to
    ensures edges[a].kind.ordinal != edges[b].kind.ordinal
  {
    if a < b {
    } else {
      assert edges[b].kind.ordinal != edges[a].kind.ordinal;
    }
  }

  /**
   * The pass to negative ordinals meets the unique index at every single write exactly when no later-listed input
   * already holds the negative ordinal of an earlier position.
   */
  lemma NegativePassIff(edges: seq<EdgeRow>, n: NodeId, ids: seq<Id>)
    requires EdgeKeys(edges) && LiveIndexes(edges) && Permutes(edges, n, ids)
    ensures PassHolds(edges, ids, -1) <==> !Blocks(edges, ids)
  {
    if !Blocks(edges, ids) {
      forall k | 0 <= k <= |ids|
        ensures LiveIndexes(Pass(edges, ids, k, -1))
      {
        WriteMeetsIndexes(edges, n, ids, k, -1);
      }
    } else {
      var i: nat, j: nat :| i < j < |ids| && Sits(edges, ids, -1, i, j);
      var b :| 0 <= b < |edges| && edges[b].id == ids[j] && edges[b].LiveContext()
          && edges[b].kind.ordinal == -1 * (i + 1);
      assert IsInput(edges, n, ids[i]);
      var a :| 0 <= a < |edges| && edges[a].id == ids[i] && edges[a].LiveContext() && edges[a].to == n;
      ListedIsInput(edges, n, ids, b);
      var r := Pass(edges, ids, i + 1, -1);
      PassAt(edges, ids, i + 1, -1, a);
      PassAt(edges, ids, i + 1, -1, b);
      assert r[a].kind.ordinal == r[b].kind.ordinal;
      if LiveIndexes(r) {
        LiveIndexPair(r, a, b);
      }
    }
  }

  /** After the negative pass the positive one never collides. */
  lemma PositivePassHolds(edges: seq<EdgeRow>, n: NodeId, ids: seq<Id>)
    requires EdgeKeys(edges) && Permutes(edges, n, ids) && PassHolds(edges, ids, -1)
    ensures PassHolds(Pass(edges, ids, |ids|, -1), ids, 1)
  {
    var mid := Pass(edges, ids, |ids|, -1);
    NegatedTable(edges, n, ids);
    forall k | 0 <= k <= |ids|
      ensures LiveIndexes(Pass(mid, ids, k, 1))
    {
      forall i: nat, j: nat | i < k <= j < |ids|
        ensures !Sits(mid, ids, 1, i, j)
      {
        forall a | 0 <= a < |mid| && mid[a].id == ids[j] && mid[a].LiveContext()
          ensures mid[a].kind.ordinal == -1 * (j + 1)
        {
          PassAt(edges, ids, |ids|, -1, a);
        }
      }
      WriteMeetsIndexes(mid, n, ids, k, 1);
    }
  }

  /** Renumbering changes no id, no end and no liveness. */
  lemma NegatedTable(edges: seq<EdgeRow>, n: NodeId, ids: seq<Id>)
    requires EdgeKeys(edges) && Permutes(edges, n, ids)
    ensures var mid := Pass(edges, ids, |ids|, -1);
            EdgeKeys(mid) && Permutes(mid, n, ids)
            && forall i | 0 <= i < |edges| ::
                mid[i].id == edges[i].id && mid[i].to == edges[i].to && mid[i].LiveContext() == edges[i].LiveContext()
  {
    var mid := Pass(edges, ids, |ids|, -1);
    forall i | 0 <= i < |edges|
      ensures mid[i].id == edges[i].id && mid[i].to == edges[i].to && mid[i].LiveContext() == edges[i].LiveContext()
    {
      PassAt(edges, ids, |ids|, -1, i);
      if edges[i].id in ids[..|ids|] {
        var j :| 0 <= j < |ids| && ids[j] == edges[i].id;
      }
    }
    SameInputs(edges, mid, n, ids);
  }

  lemma SameInputs(edges: seq<EdgeRow>, mid: seq<EdgeRow>, n: NodeId, ids: seq<Id>)
    requires |mid| == |edges| && EdgeKeys(edges) && Permutes(edges, n, ids)
    requires forall i | 0 <= i < |edges| ::
        mid[i].id == edges[i].id && mid[i].to == edges[i].to && mid[i].LiveContext() == edges[i].LiveContext()
    ensures EdgeKeys(mid) && Permutes(mid, n, ids)
  {
    forall x
      ensures IsInput(mid, n, x) <==> IsInput(edges, n, x)
    {
      if IsInput(edges, n, x) {
        var i :| 0 <= i < |edges| && edges[i].id == x && edges[i].LiveContext() && edges[i].to == n;
        assert mid[i].id == x && mid[i].LiveContext() && mid[i].to == n;
      }
    }
  }

  /** What a completed reorder leaves: the listed inputs hold 1..n in the given order, every other row is as it was. */
  lemma ReorderedRow(edges: seq<EdgeRow>, n: NodeId, ids: seq<Id>, i: nat)
    requires EdgeKeys(edges) && Permutes(edges, n, ids) && i < |edges|
    ensures var done := Pass(Pass(edges, ids, |ids|, -1), ids, |ids|, 1);
            && |done| == |edges|
            && (!(edges[i].LiveContext() && edges[i].to == n) ==> done[i] == edges[i])
            && (forall j | 0 <= j < |ids| && ids[j] == edges[i].id ::
                  edges[i].kind.Context? && done[i] == edges[i].(kind := edges[i].kind.(ordinal := j + 1)))
  {
    var mid := Pass(edges, ids, |ids|, -1);
    NegatedTable(edges, n, ids);
    PassAt(edges, ids, |ids|, -1, i);
    PassAt(mid, ids, |ids|, 1, i);
    if edges[i].id in ids {
      ListedIsInput(edges, n, ids, i);
    }
  }

  /** A reorder answers exactly: no permutation, `BadReorder`; a blocked write, rolled back; otherwise it lands. */
  lemma ReorderOutcome(s: State, n: NodeId, ids: seq<Id>)
    requires Constraints(s)
    ensures var r := ReorderContextInputs(s, n, ids);
            && (r == Refused(BadReorder) <==> !Permutes(s.edges, n, ids))
            && (r.Done? <==> Permutes(s.edges, n, ids) && !Blocks(s.edges, ids))
  {
    AcceptsExactlyPermutations(s.edges, n, ids);
    if Permutes(s.edges, n, ids) {
      NegativePassIff(s.edges, n, ids);
      if !Blocks(s.edges, ids) {
        PositivePassHolds(s.edges, n, ids);
      }
    }
  }

  /** Inputs whose ordinals start positive are never blocked. */
  lemma PositiveOrdinalsNeverBlock(edges: seq<EdgeRow>, ids: seq<Id>)
    requires forall i | 0 <= i < |edges| && edges[i].LiveContext() :: edges[i].kind.ordinal > 0
    ensures !Blocks(edges, ids)
  {
  }

  /** The rows of the listed inputs as the reorder leaves them, in the given order. */
  ghost predicate Listed(edges: seq<EdgeRow>, n: NodeId, ids: seq<Id>, rows: seq<EdgeRow>) {
    && |rows| <= |ids|
    && forall j | 0 <= j < |rows| ::
         rows[j] in edges && rows[j].id == ids[j] && rows[j].LiveContext() && rows[j].to == n
             && rows[j].kind.ordinal == j + 1
  }

  lemma ListedRows(s: State, n: NodeId, ids: seq<Id>) returns (rows: seq<EdgeRow>)
    requires Constraints(s) && Permutes(s.edges, n, ids) && ReorderContextInputs(s, n, ids).Done?
    ensures |rows| == |ids| && Listed(ReorderContextInputs(s, n, ids).state.edges, n, ids, rows)
  {
    var edges := ReorderContextInputs(s, n, ids).state.edges;
    rows := [];
    while |rows| < |ids|
      invariant Listed(edges, n, ids, rows)
    {
      var j := |rows|;
      assert IsInput(s.edges, n, ids[j]);
      var i :| 0 <= i < |s.edges| && s.edges[i].id == ids[j] && s.edges[i].LiveContext() && s.edges[i].to == n;
      ReorderedRow(s.edges, n, ids, i);
      rows := rows + [edges[i]];
    }
  }

  /** They are all the inputs there are. */
  lemma ListedAreInputs(s: State, n: NodeId, ids: seq<Id>, rows: seq<EdgeRow>, e: EdgeRow)
    requires Constraints(s) && Permutes(s.edges, n, ids) && ReorderContextInputs(s, n, ids).Done?
    requires |rows| == |ids| && Listed(ReorderContextInputs(s, n, ids).state.edges, n, ids, rows)
    requires e in ReorderContextInputs(s, n, ids).state.edges && e.LiveContext() && e.to == n
    ensures e in rows
  {
    var edges := ReorderContextInputs(s, n, ids).state.edges;
    var i :| 0 <= i < |edges| && edges[i] == e;
    ReorderKeepsRow(s, n, ids, i);
    assert IsInput(s.edges, n, s.edges[i].id);
    var j :| 0 <= j < |ids| && ids[j] == s.edges[i].id;
    assert rows[j] in edges;
    var m :| 0 <= m < |edges| && edges[m] == rows[j];
    ReorderKeepsRow(s, n, ids, m);
    assert m == i;
  }

  lemma ReorderKeepsRow(s: State, n: NodeId, ids: seq<Id>, i: nat)
    requires Constraints(s) && Permutes(s.edges, n, ids) && ReorderContextInputs(s, n, ids).Done? && i < |s.edges|
    ensures var e, f := s.edges[i], ReorderContextInputs(s, n, ids).state.edges[i];
            f.id == e.id && f.from == e.from && f.to == e.to && f.deletedAt == e.deletedAt
            && (e.kind.Provenance? ==> f == e)
            && (e.kind.Context? ==> f.kind.Context? && f.kind.author == e.kind.author)
  {
    ReorderedRow(s.edges, n, ids, i);
    if s.edges[i].LiveContext() && s.edges[i].to == n {
      assert IsInput(s.edges, n, s.edges[i].id);
      var j :| 0 <= j < |ids| && ids[j] == s.edges[i].id;
    }
  }

  /** After a reorder, `contextInputs` returns exactly the given order, numbered from one. */
  lemma ReorderedInputs(s: State, n: NodeId, ids: seq<Id>)
    requires Constraints(s) && ReorderContextInputs(s, n, ids).Done?
    ensures var got := ContextInputs(ReorderContextInputs(s, n, ids).state.edges, n);
            |got| == |ids| && forall j | 0 <= j < |ids| :: got[j].id == ids[j] && Ordinal(got[j]) == j + 1
  {
    ReorderOutcome(s, n, ids);
    var edges := ReorderContextInputs(s, n, ids).state.edges;
    var rows := ListedRows(s, n, ids);
    var kept := InputRows(edges, n);
    forall e
      ensures e in rows <==> e in kept
    {
      if e in kept {
        ListedAreInputs(s, n, ids, rows, e);
      }
    }
    InputRowsDistinct(s, n, ids);
    SameMembersSameMultiset(rows, kept);
    SortIsSorted(kept, ByOrdinal);
    OrderIsUnique(rows, Sort(kept, ByOrdinal), ByOrdinal);
  }

  lemma InputRowsDistinct(s: State, n: NodeId, ids: seq<Id>)
    requires Constraints(s) && Permutes(s.edges, n, ids) && ReorderContextInputs(s, n, ids).Done?
    ensures Distinct(InputRows(ReorderContextInputs(s, n, ids).state.edges, n))
  {
    var edges := ReorderContextInputs(s, n, ids).state.edges;
    forall i, j | 0 <= i < j < |edges|
      ensures edges[i] != edges[j]
    {
      ReorderKeepsRow(s, n, ids, i);
      ReorderKeepsRow(s, n, ids, j);
    }
    FilterDistinct(edges, (e: EdgeRow) => e.LiveContext() && e.to == n);
  }
}
