/** How runs of one definition turned out, counted (packages/core/src/run-comparison.ts). */
module Outcomes {
  import opened Wrappers
  import opened Sorting
  import opened Estimates

  datatype RunStatus = Running | Completed | Failed | OutOfBudget | Stopped | Interrupted

  function RunStatuses(): seq<RunStatus> {
    [Running, Completed, Failed, OutOfBudget, Stopped, Interrupted]
  }

  type CommandId = nat

  datatype Outcome = Outcome(command: CommandId, status: RunStatus, costMicros: int, inputTokens: int,
      outputTokens: int, submissions: int)

  datatype StatusCount = StatusCount(status: RunStatus, runs: int)

  /** What a command's runs came to. */
  datatype Tally = Tally(runs: int, completed: bool)

  /** The two averages are in hundredths, as they are shown. */
  datatype Aggregate = Aggregate(
    attempts: nat, byStatus: seq<StatusCount>, attemptsPerCompletion: Option<int>, commands: nat,
    cost: CostEstimate, submissions: int, submissionsPerRun: Option<int>)

  // ----- counting

  datatype Measure = HasStatus(status: RunStatus) | HasCommand(commands: set<CommandId>) | Submissions

  function Weight(measure: Measure, run: Outcome): int {
    match measure
    case HasStatus(status) => if run.status == status then 1 else 0
    case HasCommand(commands) => if run.command in commands then 1 else 0
    case Submissions => run.submissions
  }

  function Total(runs: seq<Outcome>, measure: Measure): int
    decreases |runs|
  {
    if runs == [] then 0 else Total(runs[..|runs| - 1], measure) + Weight(measure, runs[|runs| - 1])
  }

  lemma {:induction false} TotalJoin(runs: seq<Outcome>, more: seq<Outcome>, measure: Measure)
    ensures Total(runs + more, measure) == Total(runs, measure) + Total(more, measure)
    decreases |more|
  {
    if more == [] {
      assert runs + more == runs;
    } else {
      var n := |more| - 1;
      assert (runs + more)[..|runs| + n] == runs + more[..n];
      TotalJoin(runs, more[..n], measure);
    }
  }

  lemma {:induction false} TotalPermutes(runs: seq<Outcome>, others: seq<Outcome>, measure: Measure)
    requires multiset(runs) == multiset(others)
    ensures Total(runs, measure) == Total(others, measure)
    decreases |runs|
  {
    if runs == [] {
      assert |multiset(others)| == 0;
    } else {
      var k := FirstFound(runs, others);
      var front, back := others[..k], others[k + 1..];
      TotalPermutes(runs[1..], front + back, measure);
      TotalJoin([runs[0]], runs[1..], measure);
      TotalJoin(front, [runs[0]] + back, measure);
      TotalJoin([runs[0]], back, measure);
      TotalJoin(front, back, measure);
      assert runs == [runs[0]] + runs[1..];
    }
  }

  function Histogram(runs: seq<Outcome>, statuses: seq<RunStatus>): seq<StatusCount> {
    if statuses == [] then []
    else
      var rest := Histogram(runs, statuses[1..]);
      var count := Total(runs, HasStatus(statuses[0]));
      if count == 0 then rest else [StatusCount(statuses[0], count)] + rest
  }

  function Commands(runs: seq<Outcome>): set<CommandId> {
    set run | run in runs :: run.command
  }

  function Completing(runs: seq<Outcome>): set<CommandId> {
    set run | run in runs && run.status.Completed? :: run.command
  }

  /** Hundredths of total / count, halves rounded up. */
  function Hundredths(total: int, count: nat): int
    requires count > 0
  {
    (200 * total + count) / (2 * count)
  }

  function PriorRunsOf(runs: seq<Outcome>): seq<PriorRun>
    decreases |runs|
  {
    if runs == [] then []
    else
      var last := runs[|runs| - 1];
      PriorRunsOf(runs[..|runs| - 1]) + [PriorRun(last.costMicros, last.inputTokens, last.outputTokens)]
  }

  function AggregateOf(inputTokens: int, runs: seq<Outcome>): Aggregate {
    var completing := Completing(runs);
    Aggregate(
      |runs|,
      Histogram(runs, RunStatuses()),
      if completing == {} then None else Some(Hundredths(Total(runs, HasCommand(completing)), |completing|)),
      |Commands(runs)|,
      EstimateRunCost(inputTokens, PriorRunsOf(runs)),
      Total(runs, Submissions),
      if runs == [] then None else Some(Hundredths(Total(runs, Submissions), |runs|)))
  }

  // ----- the histogram adds up

  function TotalOf(rows: seq<StatusCount>): int {
    if rows == [] then 0 else rows[0].runs + TotalOf(rows[1..])
  }

  /** How many runs ended in one of these statuses. */
  function CountIn(runs: seq<Outcome>, statuses: seq<RunStatus>): nat
    decreases |runs|
  {
    if runs == [] then 0
        else CountIn(runs[..|runs| - 1], statuses) + (if runs[|runs| - 1].status in statuses then 1 else 0)
  }

  lemma {:induction false} CountSplits(runs: seq<Outcome>, statuses: seq<RunStatus>)
    requires Distinct(statuses) && statuses != []
    ensures CountIn(runs, statuses) == Total(runs, HasStatus(statuses[0])) + CountIn(runs, statuses[1..])
    decreases |runs|
  {
    if runs != [] {
      CountSplits(runs[..|runs| - 1], statuses);
      assert statuses == [statuses[0]] + statuses[1..];
    }
  }

  lemma {:induction false} CountNone(runs: seq<Outcome>)
    ensures CountIn(runs, []) == 0
    decreases |runs|
  {
    if runs != [] {
      CountNone(runs[..|runs| - 1]);
    }
  }

  lemma {:induction false} CountPositive(runs: seq<Outcome>, status: RunStatus)
    ensures Total(runs, HasStatus(status)) >= 0
    ensures Total(runs, HasStatus(status)) > 0 <==> exists run :: run in runs && run.status == status
    decreases |runs|
  {
    if runs != [] {
      var front, last := runs[..|runs| - 1], runs[|runs| - 1];
      CountPositive(front, status);
      assert runs == front + [last];
      assert last in runs;
    }
  }

  ghost predicate RowsCount(rows: seq<StatusCount>, runs: seq<Outcome>, statuses: seq<RunStatus>) {
    && (forall row | row in rows :: row.status in statuses && row.runs == Total(runs, HasStatus(row.status)) > 0)
    && (forall status | status in statuses && Total(runs, HasStatus(status)) > 0 ::
        StatusCount(status, Total(runs, HasStatus(status))) in rows)
    && (forall i, j | 0 <= i < j < |rows| :: rows[i].status != rows[j].status)
  }

  lemma {:induction false} HistogramCounts(runs: seq<Outcome>, statuses: seq<RunStatus>)
    requires Distinct(statuses)
    ensures TotalOf(Histogram(runs, statuses)) == CountIn(runs, statuses)
    ensures RowsCount(Histogram(runs, statuses), runs, statuses)
  {
    if statuses == [] {
      CountNone(runs);
    } else {
      HistogramCounts(runs, statuses[1..]);
      CountSplits(runs, statuses);
      CountPositive(runs, statuses[0]);
      assert statuses == [statuses[0]] + statuses[1..];
    }
  }

  lemma StatusListed(status: RunStatus)
    ensures status in RunStatuses() && Distinct(RunStatuses())
  {
    var all := RunStatuses();
    assert all[0] == Running && all[1] == Completed && all[2] == Failed && all[3] == OutOfBudget && all[4] == Stopped
        && all[5] == Interrupted;
  }

  lemma {:induction false} EveryRunCounted(runs: seq<Outcome>)
    ensures CountIn(runs, RunStatuses()) == |runs|
    decreases |runs|
  {
    if runs != [] {
      EveryRunCounted(runs[..|runs| - 1]);
      StatusListed(runs[|runs| - 1].status);
    }
  }

  /**
   * Every run is in exactly one row of the histogram: the rows sum to the attempts, one row for each status some run
   * ended in.
   */
  lemma HistogramSumsToAttempts(inputTokens: int, runs: seq<Outcome>)
    ensures var a := AggregateOf(inputTokens, runs);
      && TotalOf(a.byStatus) == a.attempts == |runs|
      && RowsCount(a.byStatus, runs, RunStatuses())
      && (forall run | run in runs :: exists row :: row in a.byStatus && row.status == run.status)
  {
    StatusListed(Running);
    HistogramCounts(runs, RunStatuses());
    EveryRunCounted(runs);
    var rows := Histogram(runs, RunStatuses());
    hide Histogram, TotalOf, CountIn;
    forall run | run in runs
      ensures exists row :: row in rows && row.status == run.status
    {
      StatusListed(run.status);
      CountPositive(runs, run.status);
      assert StatusCount(run.status, Total(runs, HasStatus(run.status))) in rows;
    }
  }

  // ----- the per-command counts add up

  lemma {:induction false} OneMoreCommand(runs: seq<Outcome>, commands: set<CommandId>, command: CommandId)
    requires command !in commands
    ensures Total(runs, HasCommand(commands + {command})) == Total(runs, HasCommand(commands))
        + Total(runs, HasCommand({command}))
    decreases |runs|
  {
    if runs != [] {
      OneMoreCommand(runs[..|runs| - 1], commands, command);
    }
  }

  lemma {:induction false} NoCommands(runs: seq<Outcome>)
    ensures Total(runs, HasCommand({})) == 0
    decreases |runs|
  {
    if runs != [] {
      NoCommands(runs[..|runs| - 1]);
    }
  }

  /** The runs of all the commands there are, are all the runs. */
  lemma {:induction false} CommandsCoverRuns(runs: seq<Outcome>, commands: set<CommandId>)
    requires Commands(runs) <= commands
    ensures Total(runs, HasCommand(commands)) == |runs|
    decreases |runs|
  {
    if runs != [] {
      var front, last := runs[..|runs| - 1], runs[|runs| - 1];
      assert last in runs && last.command in Commands(runs);
      forall run | run in front
        ensures run.command in commands
      {
        assert run in runs && run.command in Commands(runs);
      }
      CommandsCoverRuns(front, commands);
    }
  }

  function SumCounts(runs: seq<Outcome>, commands: seq<CommandId>): int
    decreases |commands|
  {
    if commands == [] then 0
    else SumCounts(runs, commands[..|commands| - 1]) + Total(runs, HasCommand({commands[|commands| - 1]}))
  }

  lemma {:induction false} SumsOverCommands(runs: seq<Outcome>, commands: seq<CommandId>)
    requires Distinct(commands)
    ensures SumCounts(runs, commands) == Total(runs, HasCommand(Members(commands)))
    decreases |commands|
  {
    if commands == [] {
      NoCommands(runs);
      assert Members(commands) == {};
    } else {
      var front, last := commands[..|commands| - 1], commands[|commands| - 1];
      SumsOverCommands(runs, front);
      assert commands == front + [last];
      assert Members(commands) == Members(front) + {last};
      OneMoreCommand(runs, Members(front), last);
    }
  }

  /** Listing each command once, in whatever order, the runs of each sum to the attempts. */
  lemma CommandCountsSumToAttempts(runs: seq<Outcome>, commands: seq<CommandId>)
    requires Distinct(commands) && Members(commands) == Commands(runs)
    ensures SumCounts(runs, commands) == |runs|
  {
    SumsOverCommands(runs, commands);
    CommandsCoverRuns(runs, Commands(runs));
  }

  // ----- the order of the runs does not matter

  lemma {:induction false} PriorRunsJoin(runs: seq<Outcome>, more: seq<Outcome>)
    ensures PriorRunsOf(runs + more) == PriorRunsOf(runs) + PriorRunsOf(more)
    decreases |more|
  {
    if more == [] {
      assert runs + more == runs;
    } else {
      var n := |more| - 1;
      assert (runs + more)[..|runs| + n] == runs + more[..n];
      PriorRunsJoin(runs, more[..n]);
    }
  }

  lemma {:induction false} PriorRunsPermute(runs: seq<Outcome>, others: seq<Outcome>)
    requires multiset(runs) == multiset(others)
    ensures multiset(PriorRunsOf(runs)) == multiset(PriorRunsOf(others))
    decreases |runs|
  {
    if runs == [] {
      assert |multiset(others)| == 0;
    } else {
      var k := FirstFound(runs, others);
      var front, back := others[..k], others[k + 1..];
      PriorRunsPermute(runs[1..], front + back);
      PriorRunsJoin([runs[0]], runs[1..]);
      PriorRunsJoin(front, [runs[0]] + back);
      PriorRunsJoin([runs[0]], back);
      PriorRunsJoin(front, back);
      assert runs == [runs[0]] + runs[1..];
      hide PriorRunsOf;
      JoinedEitherWay(PriorRunsOf(front), PriorRunsOf([runs[0]]), PriorRunsOf(back));
    }
  }

  lemma {:induction false} HistogramPermutes(runs: seq<Outcome>, others: seq<Outcome>, statuses: seq<RunStatus>)
    requires multiset(runs) == multiset(others)
    ensures Histogram(runs, statuses) == Histogram(others, statuses)
  {
    if statuses != [] {
      TotalPermutes(runs, others, HasStatus(statuses[0]));
      HistogramPermutes(runs, others, statuses[1..]);
    }
  }

  /** The same runs in any order give the same aggregate, cost estimate included. */
  lemma AggregateIgnoresOrder(inputTokens: int, runs: seq<Outcome>, others: seq<Outcome>)
    requires multiset(runs) == multiset(others)
    ensures AggregateOf(inputTokens, runs) == AggregateOf(inputTokens, others)
  {
    assert forall run :: run in runs <==> run in multiset(others);
    assert Commands(runs) == Commands(others) && Completing(runs) == Completing(others);
    assert |runs| == |multiset(runs)| == |multiset(others)| == |others|;
    TotalPermutes(runs, others, HasCommand(Completing(runs)));
    TotalPermutes(runs, others, Submissions);
    HistogramPermutes(runs, others, RunStatuses());
    PriorRunsPermute(runs, others);
    OrderIsIrrelevant(inputTokens, PriorRunsOf(runs), PriorRunsOf(others));
  }

  // ----- the aggregate as it is computed

  ghost predicate Tallied(perCommand: map<CommandId, Tally>, runs: seq<Outcome>) {
    && perCommand.Keys == Commands(runs)
    && forall c | c in perCommand :: perCommand[c] == Tally(Total(runs, HasCommand({c})), c in Completing(runs))
  }

  lemma {:induction false} NoneOfCommand(runs: seq<Outcome>, command: CommandId)
    requires command !in Commands(runs)
    ensures Total(runs, HasCommand({command})) == 0
    decreases |runs|
  {
    if runs != [] {
      var front, last := runs[..|runs| - 1], runs[|runs| - 1];
      assert last in runs && last.command in Commands(runs);
      forall run | run in front
        ensures run.command != command
      {
        assert run in runs && run.command in Commands(runs);
      }
      NoneOfCommand(front, command);
    }
  }

  lemma TallyOneMore(perCommand: map<CommandId, Tally>, runs: seq<Outcome>, run: Outcome)
    requires Tallied(perCommand, runs)
    ensures var entry := if run.command in perCommand then perCommand[run.command] else Tally(0, false);
      Tallied(perCommand[run.command := Tally(entry.runs + 1, entry.completed || run.status.Completed?)], runs + [run])
  {
    var more := runs + [run];
    assert more[..|runs|] == runs;
    assert Commands(more) == Commands(runs) + {run.command};
    assert Completing(more) == Completing(runs) + if run.status.Completed? then {run.command} else {};
    assert Completing(runs) <= Commands(runs);
    if run.command !in perCommand {
      NoneOfCommand(runs, run.command);
    }
  }

  ghost predicate Counted(counts: map<RunStatus, int>, runs: seq<Outcome>) {
    && (forall status :: Total(runs, HasStatus(status)) == if status in counts then counts[status] else 0)
    && (forall status | status in counts :: counts[status] > 0)
  }

  lemma CountOneMore(counts: map<RunStatus, int>, runs: seq<Outcome>, run: Outcome)
    requires Counted(counts, runs)
    ensures Counted(counts[run.status := 1 + if run.status in counts then counts[run.status] else 0], runs + [run])
  {
    assert (runs + [run])[..|runs|] == runs;
  }

  method AggregateRunOutcomes(inputTokens: int, runs: seq<Outcome>) returns (a: Aggregate)
    ensures a == AggregateOf(inputTokens, runs)
  {
    var counts: map<RunStatus, int> := map[];
    var perCommand: map<CommandId, Tally> := map[];
    var submissions := 0;
    for i := 0 to |runs|
      invariant Counted(counts, runs[..i]) && Tallied(perCommand, runs[..i])
      invariant submissions == Total(runs[..i], Submissions)
    {
      var run := runs[i];
      ghost var k: nat := i + 1;
      assert runs[..k] == runs[..i] + [run] && runs[..k][..i] == runs[..i];
      CountOneMore(counts, runs[..i], run);
      TallyOneMore(perCommand, runs[..i], run);
      hide Tallied, Counted;
      counts := counts[run.status := 1 + if run.status in counts then counts[run.status] else 0];
      var entry := if run.command in perCommand then perCommand[run.command] else Tally(0, false);
      perCommand := perCommand[run.command := Tally(entry.runs + 1, entry.completed || run.status.Completed?)];
      submissions := submissions + run.submissions;
    }
    assert runs[..|runs|] == runs;
    var byStatus := Rows(runs, counts);
    var attempts, completed := AttemptsOfCompleted(runs, perCommand);
    return Aggregate(|runs|, byStatus, if completed == 0 then None else Some(Hundredths(attempts, completed)),
      |perCommand|, EstimateRunCost(inputTokens, PriorRunsOf(runs)), submissions,
      if runs == [] then None else Some(Hundredths(submissions, |runs|)));
  }

  /** The statuses that were counted, in their listed order. */
  method Rows(runs: seq<Outcome>, counts: map<RunStatus, int>) returns (rows: seq<StatusCount>)
    requires Counted(counts, runs)
    ensures rows == Histogram(runs, RunStatuses())
  {
    var statuses := RunStatuses();
    rows := [];
    for i := |statuses| downto 0
      invariant rows == Histogram(runs, statuses[i..])
    {
      if statuses[i] in counts {
        rows := [StatusCount(statuses[i], counts[statuses[i]])] + rows;
      }
    }
  }

  /** Over the commands that ever completed: their runs, and how many they are. */
  method AttemptsOfCompleted(runs: seq<Outcome>, perCommand: map<CommandId, Tally>)
      returns (attempts: int, completed: nat)
    requires Tallied(perCommand, runs)
    ensures attempts == Total(runs, HasCommand(Completing(runs))) && completed == |Completing(runs)|
  {
    assert Completing(runs) <= perCommand.Keys;
    NoCommands(runs);
    hide Total, Completing, Commands;
    attempts, completed := 0, 0;
    var left := perCommand.Keys;
    ghost var done: set<CommandId> := {};
    while left != {}
      invariant left <= perCommand.Keys
      invariant forall c :: c in done <==> c in perCommand && c !in left && c in Completing(runs)
      invariant attempts == Total(runs, HasCommand(done)) && completed == |done|
      decreases left
    {
      var command :| command in left;
      left := left - {command};
      if perCommand[command].completed {
        OneMoreCommand(runs, done, command);
        attempts, completed := attempts + perCommand[command].runs, completed + 1;
        done := done + {command};
      }
    }
    assert done == Completing(runs);
  }

  // ----- the figures themselves

  /** A shown average is within half a hundredth of the true one, and halves are rounded up. */
  lemma HundredthsLaw(total: int, count: nat)
    requires count > 0
    ensures 0 <= 2 * (100 * total - count * Hundredths(total, count)) + count < 2 * count
  {
    var x, n := 200 * total + count, 2 * count;
    assert x == n * (x / n) + x % n && 0 <= x % n < n;
    assert n * (x / n) == 2 * (count * Hundredths(total, count));
  }

  lemma {:induction false} PriorRunsAt(runs: seq<Outcome>)
    ensures |PriorRunsOf(runs)| == |runs|
    ensures forall i | 0 <= i < |runs| :: PriorRunsOf(runs)[i].costMicros == runs[i].costMicros
    decreases |runs|
  {
    if runs != [] {
      PriorRunsAt(runs[..|runs| - 1]);
    }
  }

  lemma PriorCosts(runs: seq<Outcome>)
    ensures forall run | run in runs :: exists p :: p in PriorRunsOf(runs) && p.costMicros == run.costMicros
    ensures forall p | p in PriorRunsOf(runs) :: exists run :: run in runs && run.costMicros == p.costMicros
  {
    var prior := PriorRunsOf(runs);
    PriorRunsAt(runs);
    hide PriorRunsOf;
    forall run | run in runs
      ensures exists p :: p in prior && p.costMicros == run.costMicros
    {
      var i :| 0 <= i < |runs| && runs[i] == run;
      assert prior[i] in prior;
    }
    forall p | p in prior
      ensures exists run :: run in runs && run.costMicros == p.costMicros
    {
      var i :| 0 <= i < |prior| && prior[i] == p;
      assert runs[i] in runs;
    }
  }

  /** What the next run may cost is judged by what these did, from the cheapest to the dearest. */
  lemma CostLaw(inputTokens: int, runs: seq<Outcome>)
    ensures var range := AggregateOf(inputTokens, runs).cost.range;
      && (range.Some? <==> exists run :: run in runs && run.costMicros > 0)
      && (range.Some? ==>
            && (forall run | run in runs && run.costMicros > 0 ::
                  range.value.lowMicros <= run.costMicros <= range.value.highMicros)
            && (exists run :: run in runs && run.costMicros == range.value.lowMicros)
            && (exists run :: run in runs && run.costMicros == range.value.highMicros))
  {
    var prior := PriorRunsOf(runs);
    RangeIff(inputTokens, prior);
    if EstimateRunCost(inputTokens, prior).range.Some? {
      RangeBrackets(inputTokens, prior);
    }
    PriorCosts(runs);
    hide EstimateRunCost, PriorRunsOf, Hundredths, Total, Histogram, Completing, Commands, Ascending, Priced;
  }

  /**
   * Some command completed exactly when some run did, and then the attempts per completion are an average over those
   * commands.
   */
  lemma AggregateLaw(inputTokens: int, runs: seq<Outcome>)
    ensures var a := AggregateOf(inputTokens, runs);
      && a.attempts == |runs| && a.submissions == Total(runs, Submissions) && a.cost.inputTokens == inputTokens
      && (a.attemptsPerCompletion.Some? <==> exists run :: run in runs && run.status.Completed?)
      && (a.submissionsPerRun.Some? <==> runs != [])
      && (runs != [] ==> 0 <= 2 * (100 * a.submissions - |runs| * a.submissionsPerRun.value) + |runs| < 2 * |runs|)
      && (a.attemptsPerCompletion.Some? ==>
            var n := |Completing(runs)|;
            0 <= 2 * (100 * Total(runs, HasCommand(Completing(runs))) - n * a.attemptsPerCompletion.value) + n < 2 * n)
      && (forall c :: c in Completing(runs) <==> exists run :: run in runs && run.command == c && run.status.Completed?)
  {
    var done := Completing(runs);
    BasisLaw(inputTokens, PriorRunsOf(runs));
    if exists run :: run in runs && run.status.Completed? {
      var run :| run in runs && run.status.Completed?;
      assert run.command in done;
    }
    if done != {} {
      var c :| c in done;
      HundredthsLaw(Total(runs, HasCommand(done)), |done|);
    }
    if runs != [] {
      HundredthsLaw(Total(runs, Submissions), |runs|);
    }
    hide Hundredths, Total, Histogram, EstimateRunCost;
  }

  /** The counted submissions are those of the runs, one by one. */
  lemma OneRunMore(runs: seq<Outcome>, run: Outcome)
    ensures Total(runs + [run], Submissions) == Total(runs, Submissions) + run.submissions
    ensures forall commands ::
      Total(runs + [run], HasCommand(commands))
        == Total(runs, HasCommand(commands)) + if run.command in commands then 1 else 0
  {
    assert (runs + [run])[..|runs|] == runs;
  }
}
