/**
 * The session timeline: the observation log folded into turns with their tool calls
 * (packages/core/src/session-timeline.ts).
 */
module Timeline {
  import opened Wrappers
  import opened Observations

  /** `serial` stands for the call's object identity: the how-manyeth call the fold has seen start. */
  datatype Call = Call(
    serial: nat, callId: string, toolName: string, startedAt: Time, endedAt: Option<Time>, elapsedMillis: Option<int>,
        failed: Option<bool>)

  datatype Turn = Turn(
    ordinal: nat, startedAt: Time, endedAt: Option<Time>, elapsedMillis: Option<int>, usage: Option<TurnUsage>,
    costUsd: Option<real>, toolCalls: seq<Call>)

  datatype Fold = Fold(turns: seq<Turn>, calls: seq<Call>, open: map<string, nat>, startedAt: Option<Time>,
      endedAt: Option<Time>)

  const EMPTY := Fold([], [], map[], None, None)

  // ----- one observation

  function NewTurn(ordinal: nat, at: Time): Turn {
    Turn(ordinal, at, None, None, None, None, [])
  }

  function NewCall(serial: nat, callId: string, toolName: string, at: Time): Call {
    Call(serial, callId, toolName, at, None, None, None)
  }

  function EndTurn(turn: Turn, usage: TurnUsage, at: Time): Turn {
    turn.(endedAt := Some(at), elapsedMillis := Some(at - turn.startedAt), usage := Some(usage),
        costUsd := usage.costUsd)
  }

  function SettleCall(call: Call, isError: bool, at: Time): Call {
    call.(endedAt := Some(at), elapsedMillis := Some(at - call.startedAt), failed := Some(isError))
  }

  /** Where the first turn with this ordinal that has not ended stands; |turns| if there is none. */
  function FindOpen(turns: seq<Turn>, ordinal: nat): (i: nat)
    ensures i <= |turns|
    ensures i < |turns| ==> turns[i].ordinal == ordinal && turns[i].endedAt.None?
    ensures forall k | 0 <= k < i :: turns[k].ordinal != ordinal || turns[k].endedAt.Some?
  {
    if turns == [] then 0
    else if turns[0].ordinal == ordinal && turns[0].endedAt.None? then 0
    else 1 + FindOpen(turns[1..], ordinal)
  }

  function Attach(turns: seq<Turn>, call: Call): seq<Turn> {
    if turns == [] then []
    else
      var last := turns[|turns| - 1];
      turns[|turns| - 1 := last.(toolCalls := last.toolCalls + [call])]
  }

  /** The call with this serial, replaced wherever it stands. */
  function Swap(calls: seq<Call>, settled: Call): (r: seq<Call>)
    ensures |r| == |calls|
    ensures forall i | 0 <= i < |calls| :: r[i] == if calls[i].serial == settled.serial then settled else calls[i]
  {
    seq(|calls|, i requires 0 <= i < |calls| => if calls[i].serial == settled.serial then settled else calls[i])
  }

  function SwapIn(turns: seq<Turn>, settled: Call): (r: seq<Turn>)
    ensures |r| == |turns|
    ensures forall i | 0 <= i < |turns| :: r[i] == turns[i].(toolCalls := Swap(turns[i].toolCalls, settled))
  {
    seq(|turns|, i requires 0 <= i < |turns| => turns[i].(toolCalls := Swap(turns[i].toolCalls, settled)))
  }

  /** Calls are numbered as they start, and every open id names a call of that id still running. */
  predicate Indexed(f: Fold) {
    && (forall i | 0 <= i < |f.calls| :: f.calls[i].serial == i)
    && (forall id | id in f.open ::
        f.open[id] < |f.calls| && f.calls[f.open[id]].callId == id && f.calls[f.open[id]].endedAt.None?)
  }

  function Observe(f: Fold, o: Observation): (r: Fold)
    requires Indexed(f)
    ensures Indexed(r)
  {
    var g := if f.startedAt.None? then f.(startedAt := Some(o.at)) else f;
    match o
    case TurnStarted(turn, at) => g.(turns := g.turns + [NewTurn(turn, at)])
    case TurnEnded(turn, usage, at) =>
      var i := FindOpen(g.turns, turn);
      if i == |g.turns| then g else g.(turns := g.turns[i := EndTurn(g.turns[i], usage, at)])
    case ToolStarted(callId, toolName, at) =>
      var call := NewCall(|g.calls|, callId, toolName, at);
      g.(open := g.open[callId := |g.calls|], calls := g.calls + [call], turns := Attach(g.turns, call))
    case ToolFinished(callId, isError, at) =>
      if callId !in g.open then g
      else
        var settled := SettleCall(g.calls[g.open[callId]], isError, at);
        g.(open := g.open - {callId}, calls := g.calls[g.open[callId] := settled], turns := SwapIn(g.turns, settled))
    case SessionEnded(at) => g.(endedAt := Some(at))
    case _ => g
  }

  function FoldAll(log: seq<Observation>): (f: Fold)
    ensures Indexed(f)
    decreases |log|
  {
    if log == [] then EMPTY else Observe(FoldAll(log[..|log| - 1]), log[|log| - 1])
  }

  // ----- the two views of the calls agree

  function Flat(turns: seq<Turn>): seq<Call>
    decreases |turns|
  {
    if turns == [] then [] else Flat(turns[..|turns| - 1]) + turns[|turns| - 1].toolCalls
  }

  predicate AnyTurn(log: seq<Observation>) {
    exists i | 0 <= i < |log| :: log[i].TurnStarted?
  }

  /** How many calls started before the first turn did. */
  function EarlyCalls(log: seq<Observation>): nat
    decreases |log|
  {
    if log == [] then 0
    else
      var front := log[..|log| - 1];
      EarlyCalls(front) + (if !AnyTurn(front) && log[|log| - 1].ToolStarted? then 1 else 0)
  }

  lemma FlatAttach(turns: seq<Turn>, call: Call)
    requires turns != []
    ensures Flat(Attach(turns, call)) == Flat(turns) + [call]
  {
    var n := |turns| - 1;
    assert Attach(turns, call)[..n] == turns[..n];
  }

  lemma {:induction false} FlatSwap(turns: seq<Turn>, settled: Call)
    ensures Flat(SwapIn(turns, settled)) == Swap(Flat(turns), settled)
    decreases |turns|
  {
    if turns != [] {
      var n := |turns| - 1;
      assert SwapIn(turns, settled)[..n] == SwapIn(turns[..n], settled);
      FlatSwap(turns[..n], settled);
    }
  }

  lemma {:induction false} FlatEnd(turns: seq<Turn>, i: nat, usage: TurnUsage, at: Time)
    requires i < |turns|
    ensures Flat(turns[i := EndTurn(turns[i], usage, at)]) == Flat(turns)
    decreases |turns|
  {
    var n := |turns| - 1;
    var ended := turns[i := EndTurn(turns[i], usage, at)];
    if i < n {
      assert ended[..n] == turns[..n][i := EndTurn(turns[..n][i], usage, at)];
      FlatEnd(turns[..n], i, usage, at);
    } else {
      assert ended[..n] == turns[..n];
    }
  }

  lemma SwapTail(calls: seq<Call>, settled: Call, from: nat)
    requires from <= |calls| && settled.serial < |calls| && forall i | 0 <= i < |calls| :: calls[i].serial == i
    ensures Swap(calls[from..], settled) == calls[settled.serial := settled][from..]
  {
  }

  /**
   * Whatever ids repeat or never match: reading the turns' calls in order gives the flat list, less the calls started
   * before the first turn.
   */
  lemma {:induction false} ViewsAgree(log: seq<Observation>)
    ensures var f := FoldAll(log);
      && EarlyCalls(log) <= |f.calls| && Flat(f.turns) == f.calls[EarlyCalls(log)..]
      && (AnyTurn(log) <==> f.turns != []) && (!AnyTurn(log) ==> EarlyCalls(log) == |f.calls|)
    decreases |log|
  {
    if log != [] {
      var n := |log| - 1;
      var front, o := log[..n], log[n];
      ViewsAgree(front);
      var f := FoldAll(front);
      assert log == front + [o];
      assert AnyTurn(log) <==> AnyTurn(front) || o.TurnStarted?;
      StepKeepsViews(f, o, EarlyCalls(front));
    }
  }

  ghost predicate Views(f: Fold, early: nat) {
    early <= |f.calls| && Flat(f.turns) == f.calls[early..] && (f.turns == [] ==> early == |f.calls|)
  }

  lemma StartKeepsViews(f: Fold, callId: string, toolName: string, at: Time, early: nat)
    requires Indexed(f) && Views(f, early)
    ensures Views(Observe(f, ToolStarted(callId, toolName, at)), early + if f.turns == [] then 1 else 0)
  {
    if f.turns != [] {
      FlatAttach(f.turns, NewCall(|f.calls|, callId, toolName, at));
    }
    hide Indexed, Flat;
  }

  lemma FinishKeepsViews(f: Fold, callId: string, isError: bool, at: Time, early: nat)
    requires Indexed(f) && Views(f, early)
    ensures Views(Observe(f, ToolFinished(callId, isError, at)), early)
  {
    if callId in f.open {
      var settled := SettleCall(f.calls[f.open[callId]], isError, at);
      FlatSwap(f.turns, settled);
      SwapTail(f.calls, settled, early);
      hide Flat, Swap;
    }
  }

  lemma TurnStartKeepsViews(f: Fold, turn: nat, at: Time, early: nat)
    requires Indexed(f) && Views(f, early)
    ensures Views(Observe(f, TurnStarted(turn, at)), early) && Observe(f, TurnStarted(turn, at)).turns != []
  {
    assert (f.turns + [NewTurn(turn, at)])[..|f.turns|] == f.turns;
    hide Indexed;
  }

  lemma TurnEndKeepsViews(f: Fold, turn: nat, usage: TurnUsage, at: Time, early: nat)
    requires Indexed(f) && Views(f, early)
    ensures Views(Observe(f, TurnEnded(turn, usage, at)), early)
    ensures Observe(f, TurnEnded(turn, usage, at)).turns == [] <==> f.turns == []
  {
    var i := FindOpen(f.turns, turn);
    if i < |f.turns| {
      FlatEnd(f.turns, i, usage, at);
    }
    hide Flat, FindOpen, Indexed;
  }

  lemma StepKeepsViews(f: Fold, o: Observation, early: nat)
    requires Indexed(f) && Views(f, early)
    ensures Views(Observe(f, o), early + if f.turns == [] && o.ToolStarted? then 1 else 0)
    ensures Observe(f, o).turns == [] <==> f.turns == [] && !o.TurnStarted?
  {
    match o
    case TurnStarted(turn, at) => TurnStartKeepsViews(f, turn, at, early);
    case TurnEnded(turn, usage, at) => TurnEndKeepsViews(f, turn, usage, at, early);
    case ToolStarted(callId, toolName, at) =>
      StartKeepsViews(f, callId, toolName, at, early);
      hide Views, Indexed;
    case ToolFinished(callId, isError, at) =>
      FinishKeepsViews(f, callId, isError, at, early);
      hide Views, Indexed;
    case _ =>
  }
}
