/** What a next run may cost, from the runs that recorded a cost (packages/core/src/runs.ts). */
module Estimates {
  import opened Wrappers
  import opened Sorting

  datatype PriorRun = PriorRun(costMicros: int, inputTokens: int, outputTokens: int)

  datatype CostRange = CostRange(lowMicros: int, highMicros: int, medianMicros: int)

  datatype Basis = PriorRuns | InputSizeOnly

  datatype CostEstimate = CostEstimate(basis: Basis, priorRuns: nat, range: Option<CostRange>, inputTokens: int)

  /** The costs of the runs that recorded one. */
  function Priced(runs: seq<PriorRun>): seq<int> {
    if runs == [] then []
    else if runs[0].costMicros > 0 then [runs[0].costMicros] + Priced(runs[1..])
    else Priced(runs[1..])
  }

  predicate AtMost(a: int, b: int) { a <= b }

  function Ascending(runs: seq<PriorRun>): seq<int> {
    Sort(Priced(runs), AtMost)
  }

  /** Math.round of half a whole number: halves go up, below zero too. */
  function RoundHalf(sum: int): int {
    (sum + 1) / 2
  }

  function Median(costs: seq<int>): int
    requires costs != []
  {
    var middle := |costs| / 2;
    if |costs| % 2 == 1 then costs[middle] else RoundHalf(costs[middle - 1] + costs[middle])
  }

  function EstimateRunCost(inputTokens: int, runs: seq<PriorRun>): CostEstimate {
    var priced := Ascending(runs);
    if priced == [] then CostEstimate(InputSizeOnly, 0, None, inputTokens)
    else CostEstimate(PriorRuns, |priced|, Some(CostRange(priced[0], priced[|priced| - 1], Median(priced))),
        inputTokens)
  }

  lemma AscendingIsSorted(runs: seq<PriorRun>)
    ensures SortedBy(Ascending(runs), AtMost)
  {
    SortIsSorted(Priced(runs), AtMost);
  }

  lemma {:induction false} PricedIff(runs: seq<PriorRun>, cost: int)
    ensures cost in Priced(runs) <==> cost > 0 && exists run :: run in runs && run.costMicros == cost
  {
    if runs != [] {
      PricedIff(runs[1..], cost);
      assert runs == [runs[0]] + runs[1..];
      if cost in Priced(runs) && runs[0].costMicros == cost {
        assert runs[0] in runs;
      }
    }
  }

  /** A range is given exactly when some run recorded a cost, and never invented otherwise. */
  lemma RangeIff(inputTokens: int, runs: seq<PriorRun>)
    ensures EstimateRunCost(inputTokens, runs).range.Some? <==> exists run :: run in runs && run.costMicros > 0
  {
    var priced := Ascending(runs);
    if priced != [] {
      assert priced[0] in multiset(Priced(runs));
      PricedIff(runs, priced[0]);
    }
    forall run | run in runs && run.costMicros > 0
      ensures run.costMicros in multiset(priced)
    {
      PricedIff(runs, run.costMicros);
    }
  }

  lemma Bounds(costs: seq<int>)
    requires SortedBy(costs, AtMost) && costs != []
    ensures forall i | 0 <= i < |costs| :: costs[0] <= costs[i] <= costs[|costs| - 1]
    ensures costs[0] <= Median(costs) <= costs[|costs| - 1]
    ensures forall i | 0 <= i < (|costs| + 1) / 2 :: costs[i] <= Median(costs)
    ensures forall i | |costs| / 2 <= i < |costs| :: Median(costs) <= costs[i]
  {
    assert forall i, j | 0 <= i < j < |costs| :: AtMost(costs[i], costs[j]);
  }

  /** The costs in order are the costs recorded: each is some run's, and every recorded one is among them. */
  lemma AscendingCosts(runs: seq<PriorRun>)
    ensures |Ascending(runs)| == |Priced(runs)|
    ensures forall i | 0 <= i < |Ascending(runs)| :: Ascending(runs)[i] > 0 && exists run ::
        run in runs && run.costMicros == Ascending(runs)[i]
    ensures forall run | run in runs && run.costMicros > 0 :: run.costMicros in Ascending(runs)
  {
    var costs := Ascending(runs);
    assert |costs| == |multiset(costs)| == |multiset(Priced(runs))| == |Priced(runs)|;
    forall i | 0 <= i < |costs|
      ensures costs[i] > 0 && exists run :: run in runs && run.costMicros == costs[i]
    {
      assert costs[i] in multiset(costs);
      PricedIff(runs, costs[i]);
    }
    forall run | run in runs && run.costMicros > 0
      ensures run.costMicros in costs
    {
      PricedIff(runs, run.costMicros);
      assert run.costMicros in multiset(costs);
    }
  }

  /**
   * Low and high are the cheapest and dearest run that recorded a cost, and half of them lie on either side of the
   * median.
   */
  lemma RangeBrackets(inputTokens: int, runs: seq<PriorRun>)
    requires EstimateRunCost(inputTokens, runs).range.Some?
    ensures var range, costs := EstimateRunCost(inputTokens, runs).range.value, Ascending(runs);
      && |costs| == |Priced(runs)| == EstimateRunCost(inputTokens, runs).priorRuns
      && 0 < range.lowMicros <= range.medianMicros <= range.highMicros
      && (forall run | run in runs && run.costMicros > 0 :: range.lowMicros <= run.costMicros <= range.highMicros)
      && (exists run :: run in runs && run.costMicros == range.lowMicros)
      && (exists run :: run in runs && run.costMicros == range.highMicros)
      && (forall i | 0 <= i < (|costs| + 1) / 2 :: costs[i] <= range.medianMicros)
      && (forall i | |costs| / 2 <= i < |costs| :: range.medianMicros <= costs[i])
  {
    AscendingIsSorted(runs);
    Bounds(Ascending(runs));
    AscendingCosts(runs);
    hide Median, Ascending, Priced;
  }

  /** Only which costs were recorded counts: not the order of the runs, their tokens, or the runs that recorded none. */
  lemma DependsOnCostsOnly(inputTokens: int, runs: seq<PriorRun>, others: seq<PriorRun>)
    requires multiset(Priced(runs)) == multiset(Priced(others))
    ensures EstimateRunCost(inputTokens, runs) == EstimateRunCost(inputTokens, others)
  {
    AscendingIsSorted(runs);
    AscendingIsSorted(others);
    OrderIsUnique(Ascending(runs), Ascending(others), AtMost);
  }

  lemma {:induction false} PricedJoin(runs: seq<PriorRun>, more: seq<PriorRun>)
    ensures Priced(runs + more) == Priced(runs) + Priced(more)
  {
    if runs == [] {
      assert runs + more == more;
    } else {
      assert (runs + more)[1..] == runs[1..] + more;
      PricedJoin(runs[1..], more);
    }
  }

  /** A run that recorded no cost is no evidence: adding it anywhere changes nothing. */
  lemma UnpricedRunIsIrrelevant(inputTokens: int, before: seq<PriorRun>, unpriced: PriorRun, after: seq<PriorRun>)
    requires unpriced.costMicros <= 0
    ensures EstimateRunCost(inputTokens, before + [unpriced] + after) == EstimateRunCost(inputTokens, before + after)
  {
    PricedJoin(before + [unpriced], after);
    PricedJoin(before, [unpriced]);
    PricedJoin(before, after);
    assert Priced([unpriced]) == [];
    hide Priced;
    assert Priced(before + [unpriced]) == Priced(before);
    DependsOnCostsOnly(inputTokens, before + [unpriced] + after, before + after);
  }

  /** The same runs in any order give the same estimate. */
  lemma OrderIsIrrelevant(inputTokens: int, runs: seq<PriorRun>, others: seq<PriorRun>)
    requires multiset(runs) == multiset(others)
    ensures EstimateRunCost(inputTokens, runs) == EstimateRunCost(inputTokens, others)
  {
    PricedPermutes(runs, others);
    DependsOnCostsOnly(inputTokens, runs, others);
  }

  lemma {:induction false} PricedPermutes(runs: seq<PriorRun>, others: seq<PriorRun>)
    requires multiset(runs) == multiset(others)
    ensures multiset(Priced(runs)) == multiset(Priced(others))
  {
    if runs == [] {
      assert |multiset(others)| == 0;
    } else {
      var first := runs[0];
      var k := FirstFound(runs, others);
      var front, back := others[..k], others[k + 1..];
      PricedPermutes(runs[1..], front + back);
      PricedJoin(front, [first] + back);
      PricedJoin([first], back);
      PricedJoin([first], runs[1..]);
      PricedJoin(front, back);
      assert runs == [first] + runs[1..];
      hide Priced;
      JoinedEitherWay(Priced(front), Priced([first]), Priced(back));
      assert multiset(Priced(runs)) == multiset(Priced([first])) + multiset(Priced(front + back));
    }
  }

  // ----- the figures themselves

  /**
   * The middle cost of an odd number of them; of an even number, half the sum of the middle two, rounded up if it is
   * not whole.
   */
  lemma MedianLaw(inputTokens: int, runs: seq<PriorRun>)
    requires EstimateRunCost(inputTokens, runs).range.Some?
    ensures var median, costs := EstimateRunCost(inputTokens, runs).range.value.medianMicros, Ascending(runs);
      && costs != [] && (forall i, j | 0 <= i < j < |costs| :: costs[i] <= costs[j])
      && (forall k: nat | |costs| == 2 * k + 1 :: median == costs[k])
      && (forall k: nat | |costs| == 2 * k && k > 0 ::
            costs[k - 1] + costs[k] <= 2 * median <= costs[k - 1] + costs[k] + 1)
  {
    AscendingIsSorted(runs);
    assert forall i, j | 0 <= i < j < |Ascending(runs)| :: AtMost(Ascending(runs)[i], Ascending(runs)[j]);
    hide Ascending;
  }

  /** The basis says whether money is known, and without history nothing but the size of the input is. */
  lemma BasisLaw(inputTokens: int, runs: seq<PriorRun>)
    ensures var e := EstimateRunCost(inputTokens, runs);
      && e.inputTokens == inputTokens && (e.basis.PriorRuns? <==> exists run :: run in runs && run.costMicros > 0)
      && (e.basis.InputSizeOnly? <==> e.range.None?) && (e.priorRuns == 0 <==> e.range.None?)
  {
    RangeIff(inputTokens, runs);
    hide Ascending, Median;
  }
}
