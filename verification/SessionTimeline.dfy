/** The fold as it runs: one pass over the log, then the totals (packages/core/src/session-timeline.ts). */
module SessionTimeline {
  import opened Wrappers
  import opened Observations
  import opened Timeline
  import opened TimelineTotals

  datatype Summary = Summary(
    startedAt: Option<Time>, endedAt: Option<Time>, turns: seq<Turn>, toolCalls: seq<Call>,
    busyMillis: int, idleMillis: int, costUsd: Option<real>)

  /** The timeline of a log: its fold, the totals over its turns, and both views of its calls in agreement. */
  method Project(log: seq<Observation>) returns (timeline: Summary)
    ensures timeline.turns == FoldAll(log).turns && timeline.toolCalls == FoldAll(log).calls
    ensures timeline.startedAt == (if log == [] then None else Some(log[0].at))
        && timeline.endedAt == FoldAll(log).endedAt
    ensures timeline.busyMillis == BusyMillis(timeline.turns) && timeline.idleMillis == IdleMillis(timeline.turns)
    ensures timeline.costUsd == TotalCost(timeline.turns)
    ensures EarlyCalls(log) <= |timeline.toolCalls| && Flat(timeline.turns) == timeline.toolCalls[EarlyCalls(log)..]
  {
    var f := EMPTY;
    for n := 0 to |log|
      invariant f == FoldAll(log[..n])
      invariant f.startedAt == if n == 0 then None else Some(log[0].at)
    {
      StartIsKept(f, log[n]);
      ghost var k: nat := n + 1;
      assert log[..k][..n] == log[..n];
      hide Observe;
      f := Take(f, log[n]);
    }
    assert log[..|log|] == log;
    ViewsAgree(log);
    var busy := Busy(f.turns);
    var idle := IdleBetween(f.turns);
    var cost := CostOf(f.turns);
    return Summary(f.startedAt, f.endedAt, f.turns, f.calls, busy, idle, cost);
  }

  lemma StartIsKept(f: Fold, o: Observation)
    requires Indexed(f)
    ensures Observe(f, o).startedAt == if f.startedAt.None? then Some(o.at) else f.startedAt
  {
  }

  /** One observation: the turn it opens or closes, or the call it starts or settles. */
  method Take(f: Fold, o: Observation) returns (r: Fold)
    requires Indexed(f)
    ensures r == Observe(f, o)
  {
    var turns, calls, open := f.turns, f.calls, f.open;
    var startedAt, endedAt := if f.startedAt.None? then Some(o.at) else f.startedAt, f.endedAt;
    hide SwapIn, Swap, FindOpen;
    match o {
      case TurnStarted(turn, at) => turns := turns + [NewTurn(turn, at)];
      case TurnEnded(turn, usage, at) =>
        var i := FindTurn(turns, turn);
        if i < |turns| {
          turns := turns[i := EndTurn(turns[i], usage, at)];
        }
      case ToolStarted(callId, toolName, at) =>
        var call := NewCall(|calls|, callId, toolName, at);
        open := open[callId := |calls|];
        calls := calls + [call];
        if turns != [] {
          var last := turns[|turns| - 1];
          turns := turns[|turns| - 1 := last.(toolCalls := last.toolCalls + [call])];
        }
      case ToolFinished(callId, isError, at) =>
        if callId in open {
          var serial := open[callId];
          var settled := SettleCall(calls[serial], isError, at);
          open := open - {callId};
          calls := calls[serial := settled];
          turns := SettleInTurns(turns, settled);
        }
      case SessionEnded(at) => endedAt := Some(at);
      case _ =>
    }
    return Fold(turns, calls, open, startedAt, endedAt);
  }

  /** The first turn with this ordinal that has not ended. */
  method FindTurn(turns: seq<Turn>, ordinal: nat) returns (i: nat)
    ensures i == FindOpen(turns, ordinal)
  {
    i := 0;
    while i < |turns| && !(turns[i].ordinal == ordinal && turns[i].endedAt.None?)
      invariant i <= |turns|
      invariant forall m | 0 <= m < i :: turns[m].ordinal != ordinal || turns[m].endedAt.Some?
    {
      i := i + 1;
    }
  }

  /** The settled call takes its place in every turn that holds it. */
  method SettleInTurns(turns: seq<Turn>, settled: Call) returns (r: seq<Turn>)
    ensures r == SwapIn(turns, settled)
  {
    r := turns;
    for i := 0 to |turns|
      invariant |r| == |turns| && forall m | 0 <= m < |turns| ::
          r[m] == if m < i then SwapIn(turns, settled)[m] else turns[m]
    {
      if exists m | 0 <= m < |turns[i].toolCalls| :: turns[i].toolCalls[m].serial == settled.serial {
        r := r[i := turns[i].(toolCalls := Swap(turns[i].toolCalls, settled))];
      } else {
        assert Swap(turns[i].toolCalls, settled) == turns[i].toolCalls;
      }
    }
  }

  method Busy(turns: seq<Turn>) returns (total: int)
    ensures total == BusyMillis(turns)
  {
    total := 0;
    for i := 0 to |turns|
      invariant total == BusyMillis(turns[..i])
    {
      assert turns[..i + 1][..i] == turns[..i];
      total := total + if turns[i].elapsedMillis.Some? then turns[i].elapsedMillis.value else 0;
    }
    assert turns[..|turns|] == turns;
  }

  method IdleBetween(turns: seq<Turn>) returns (idle: int)
    ensures idle == IdleMillis(turns)
  {
    idle := 0;
    var index := 1;
    while index < |turns|
      invariant 1 <= index && (index <= |turns| || turns == [])
      invariant idle == IdleMillis(turns[..if index <= |turns| then index else 0])
    {
      var previous, next := turns[index - 1], turns[index];
      ghost var k: nat := index + 1;
      assert turns[..k][..index] == turns[..index];
      if previous.endedAt.Some? {
        var gap := next.startedAt - previous.endedAt.value;
        idle := idle + if gap > 0 then gap else 0;
      }
      index := index + 1;
    }
    assert turns != [] ==> turns[..|turns|] == turns;
  }

  /** Nothing at all when no turn reported a cost; otherwise the sum of those that did. */
  method CostOf(turns: seq<Turn>) returns (cost: Option<real>)
    ensures cost == TotalCost(turns)
  {
    cost := None;
    for i := 0 to |turns|
      invariant cost == TotalCost(turns[..i])
    {
      assert turns[..i + 1][..i] == turns[..i];
      if turns[i].costUsd.Some? {
        cost := if cost.None? then turns[i].costUsd else Some(cost.value + turns[i].costUsd.value);
      }
    }
    assert turns[..|turns|] == turns;
  }
}
