/** Where the time went: the fold of a host's own log has turns in sequence, and its busy and idle time telescope. */
module TimelineTotals {
  import opened Wrappers
  import opened Observations
  import opened Timeline

  // ----- the totals

  function Elapsed(turn: Turn): int {
    if turn.elapsedMillis.Some? then turn.elapsedMillis.value else 0
  }

  function BusyMillis(turns: seq<Turn>): int
    decreases |turns|
  {
    if turns == [] then 0 else BusyMillis(turns[..|turns| - 1]) + Elapsed(turns[|turns| - 1])
  }

  /** The gap a turn leaves before the next; a turn that never ended leaves none. */
  function Gap(previous: Turn, next: Turn): int {
    if previous.endedAt.None? || next.startedAt < previous.endedAt.value then 0
    else next.startedAt - previous.endedAt.value
  }

  function IdleMillis(turns: seq<Turn>): int
    decreases |turns|
  {
    if |turns| < 2 then 0 else IdleMillis(turns[..|turns| - 1]) + Gap(turns[|turns| - 2], turns[|turns| - 1])
  }

  function TotalCost(turns: seq<Turn>): Option<real>
    decreases |turns|
  {
    if turns == [] then None
    else
      var before, cost := TotalCost(turns[..|turns| - 1]), turns[|turns| - 1].costUsd;
      if cost.None? then before
      else if before.None? then cost
      else Some(before.value + cost.value)
  }

  function SumOfCosts(turns: seq<Turn>): real
    decreases |turns|
  {
    if turns == [] then 0.0
    else
      var last := turns[|turns| - 1];
      SumOfCosts(turns[..|turns| - 1]) + (if last.costUsd.Some? then last.costUsd.value else 0.0)
  }

  /**
   * A cost is known exactly when some turn reported one; it is then the sum of all that did, and never a zero that
   * stands for nothing.
   */
  lemma {:induction false} CostKnownIff(turns: seq<Turn>)
    ensures TotalCost(turns).Some? <==> exists i :: 0 <= i < |turns| && turns[i].costUsd.Some?
    ensures TotalCost(turns).Some? ==> TotalCost(turns).value == SumOfCosts(turns)
    ensures TotalCost(turns).None? ==> SumOfCosts(turns) == 0.0
    decreases |turns|
  {
    if turns != [] {
      var n := |turns| - 1;
      CostKnownIff(turns[..n]);
      assert turns == turns[..n] + [turns[n]];
    }
  }

  /** The last moment a turn is known to have been going on. */
  function Boundary(turn: Turn): Time {
    if turn.endedAt.Some? then turn.endedAt.value else turn.startedAt
  }

  ghost predicate WellTimed(turn: Turn) {
    if turn.endedAt.Some?
        then turn.startedAt <= turn.endedAt.value && turn.elapsedMillis == Some(turn.endedAt.value - turn.startedAt)
    else turn.elapsedMillis.None?
  }

  /** Each turn is over, as far as anybody saw, before the next begins. */
  ghost predicate InSequence(turns: seq<Turn>) {
    && (forall i | 0 <= i < |turns| :: WellTimed(turns[i]))
    && (forall i, j | 0 <= i < j < |turns| :: Boundary(turns[i]) <= turns[j].startedAt)
  }

  /** Time between the start of a turn nobody saw end and the start of the next: neither busy nor idle. */
  function Unaccounted(turns: seq<Turn>): int
    decreases |turns|
  {
    if |turns| < 2 then 0
    else
      var previous, last := turns[|turns| - 2], turns[|turns| - 1];
      Unaccounted(turns[..|turns| - 1]) + (if previous.endedAt.None? then last.startedAt - previous.startedAt else 0)
  }

  /** One more turn adds its own time, and the time since the turn before it was last seen or started. */
  lemma OneMoreTurn(turns: seq<Turn>)
    requires InSequence(turns) && |turns| >= 2
    ensures var n := |turns| - 1;
      BusyMillis(turns) + IdleMillis(turns) + Unaccounted(turns)
      == BusyMillis(turns[..n]) + IdleMillis(turns[..n]) + Unaccounted(turns[..n])
          + Boundary(turns[n]) - Boundary(turns[n - 1])
    ensures var n := |turns| - 1; Unaccounted(turns) >= Unaccounted(turns[..n])
    ensures var n := |turns| - 1;
        Unaccounted(turns) == Unaccounted(turns[..n]) <==>
        (turns[n - 1].endedAt.None? ==> turns[n].startedAt == turns[n - 1].startedAt)
  {
    var n := |turns| - 1;
    assert WellTimed(turns[n]) && WellTimed(turns[n - 1]) && Boundary(turns[n - 1]) <= turns[n].startedAt;
    hide InSequence;
  }

  /** Busy, idle and unaccounted time together are exactly the time from the first start to the last boundary. */
  lemma {:induction false} Telescopes(turns: seq<Turn>)
    requires InSequence(turns) && turns != []
    ensures BusyMillis(turns) + IdleMillis(turns) + Unaccounted(turns)
        == Boundary(turns[|turns| - 1]) - turns[0].startedAt
    ensures Unaccounted(turns) >= 0
    ensures Unaccounted(turns) == 0 <==> NoneLost(turns)
    decreases |turns|
  {
    var n := |turns| - 1;
    var front := turns[..n];
    if n == 0 {
      assert front == [] && WellTimed(turns[0]);
    } else {
      Telescopes(front);
      OneMoreTurn(turns);
      hide InSequence, BusyMillis, IdleMillis, Unaccounted, Boundary;
      NoneLostSplit(turns);
      hide NoneLost;
    }
  }

  ghost predicate NoneLost(turns: seq<Turn>) {
    forall i | 0 <= i < |turns| - 1 :: NoTimeLost(turns, i)
  }

  lemma NoneLostSplit(turns: seq<Turn>)
    requires |turns| >= 2
    ensures var n := |turns| - 1;
        NoneLost(turns) <==>
        NoneLost(turns[..n]) && (turns[n - 1].endedAt.None? ==> turns[n].startedAt == turns[n - 1].startedAt)
  {
    var n := |turns| - 1;
    assert forall i | 0 <= i < n - 1 :: NoTimeLost(turns[..n], i) <==> NoTimeLost(turns, i);
    assert NoTimeLost(turns, n - 1) <==> (turns[n - 1].endedAt.None? ==> turns[n].startedAt == turns[n - 1].startedAt);
  }

  /** The turn was seen to end, or the next started at the very moment it did. */
  ghost predicate NoTimeLost(turns: seq<Turn>, i: nat)
    requires i < |turns| - 1
  {
    var k := i + 1;
    turns[i].endedAt.None? ==> turns[k].startedAt == turns[i].startedAt
  }

  // ----- a session host's own log

  /** The host's steps, and the observations other parts of the session add between them. */
  datatype LogStep = Host(step: HostStep, at: Time) | Other(o: Observation)

  predicate OutsideTurns(o: Observation) {
    !o.TurnStarted? && !o.TurnEnded?
  }

  function Emitted(t: Translator, step: LogStep): seq<Observation> {
    match step
    case Host(Event(event), at) => Observed(t, event, at)
    case Host(Reject(id), at) => [InjectionRefused(id, "", at)]
    case Host(Inject(_, _), _) => []
    case Other(o) => [o]
  }

  function Advance(t: Translator, step: LogStep): Translator {
    if step.Host? then Observations.Next(t, step.step) else t
  }

  function StateAfter(steps: seq<LogStep>): Translator
    decreases |steps|
  {
    if steps == [] then IDLE else Advance(StateAfter(steps[..|steps| - 1]), steps[|steps| - 1])
  }

  function Log(steps: seq<LogStep>): seq<Observation>
    decreases |steps|
  {
    if steps == [] then []
    else
      var front := steps[..|steps| - 1];
      Log(front) + Emitted(StateAfter(front), steps[|steps| - 1])
  }

  /** The log's clock: where a step of the host is stamped. */
  ghost predicate Clocked(steps: seq<LogStep>) {
    && (forall i | 0 <= i < |steps| && steps[i].Other? :: OutsideTurns(steps[i].o))
    && (forall i, j | 0 <= i < j < |steps| && steps[i].Host? && steps[j].Host? :: steps[i].at <= steps[j].at)
  }

  function StartsOf(log: seq<Observation>, turn: nat): nat
    decreases |log|
  {
    if log == [] then 0
    else
      var last := log[|log| - 1];
      StartsOf(log[..|log| - 1], turn) + (if last.TurnStarted? && last.turn == turn then 1 else 0)
  }

  function EndsOf(log: seq<Observation>, turn: nat): nat
    decreases |log|
  {
    if log == [] then 0
    else EndsOf(log[..|log| - 1], turn) + (if log[|log| - 1].TurnEnded? && log[|log| - 1].turn == turn then 1 else 0)
  }

  /** The same turns at the same times, leaving aside the calls they hold. */
  ghost predicate SameTurns(a: seq<Turn>, b: seq<Turn>) {
    |a| == |b| && forall i | 0 <= i < |a| :: SameTurn(a[i], b[i])
  }

  predicate SameTurn(a: Turn, b: Turn) {
    a.ordinal == b.ordinal && a.startedAt == b.startedAt && a.endedAt == b.endedAt && a.elapsedMillis == b.elapsedMillis
  }

  lemma OutsideKeepsTurns(f: Fold, o: Observation)
    requires Indexed(f) && OutsideTurns(o)
    ensures SameTurns(Observe(f, o).turns, f.turns)
  {
  }

  lemma LogAppend(log: seq<Observation>, o: Observation, turn: nat)
    ensures FoldAll(log + [o]) == Observe(FoldAll(log), o)
    ensures StartsOf(log + [o], turn) == StartsOf(log, turn) + (if o.TurnStarted? && o.turn == turn then 1 else 0)
    ensures EndsOf(log + [o], turn) == EndsOf(log, turn) + (if o.TurnEnded? && o.turn == turn then 1 else 0)
  {
    assert (log + [o])[..|log|] == log;
  }

  lemma SameTurnsOn(a: seq<Turn>, b: seq<Turn>, c: seq<Turn>)
    requires SameTurns(a, b) && SameTurns(b, c)
    ensures SameTurns(a, c)
  {
    assert forall i | 0 <= i < |a| :: SameTurn(a[i], b[i]) && SameTurn(b[i], c[i]);
  }

  lemma {:induction false} OutsideJoin(log: seq<Observation>, more: seq<Observation>, turn: nat)
    requires forall i | 0 <= i < |more| :: OutsideTurns(more[i])
    ensures SameTurns(FoldAll(log + more).turns, FoldAll(log).turns)
    ensures StartsOf(log + more, turn) == StartsOf(log, turn) && EndsOf(log + more, turn) == EndsOf(log, turn)
    decreases |more|
  {
    hide FoldAll, Observe, StartsOf, EndsOf;
    if more == [] {
      assert log + more == log;
    } else {
      var n := |more| - 1;
      var before := log + more[..n];
      OutsideJoin(log, more[..n], turn);
      assert log + more == before + [more[n]];
      LogAppend(before, more[n], turn);
      OutsideKeepsTurns(FoldAll(before), more[n]);
      hide SameTurns;
      SameTurnsOn(FoldAll(log + more).turns, FoldAll(before).turns, FoldAll(log).turns);
    }
  }

  /** Turns are numbered one upwards; only the last can be open, and is exactly when the translator says so. */
  ghost predicate Numbered(t: Translator, turns: seq<Turn>) {
    && |turns| == t.turn && (forall i | 0 <= i < |turns| :: turns[i].ordinal == i + 1)
    && (t.turnOpen ==> t.turn > 0) && (t.turn > 0 ==> (t.turnOpen <==> turns[t.turn - 1].endedAt.None?))
  }

  ghost predicate NotAfter(turns: seq<Turn>, now: Time) {
    forall i | 0 <= i < |turns| :: Boundary(turns[i]) <= now
  }

  /** The turn started once if it is there at all, and ended once exactly when the timeline shows it ended. */
  ghost predicate Counted(log: seq<Observation>, turns: seq<Turn>, turn: nat) {
    && StartsOf(log, turn) == (if 1 <= turn <= |turns| then 1 else 0)
    && EndsOf(log, turn) == (if 1 <= turn <= |turns| && turns[turn - 1].endedAt.Some? then 1 else 0)
  }

  ghost predicate Placed(t: Translator, turns: seq<Turn>, now: Time) {
    Numbered(t, turns) && InSequence(turns) && NotAfter(turns, now)
  }

  ghost predicate Kept(t: Translator, log: seq<Observation>, now: Time, turn: nat) {
    Placed(t, FoldAll(log).turns, now) && Counted(log, FoldAll(log).turns, turn)
  }

  lemma KeptLater(t: Translator, u: Translator, log: seq<Observation>, now: Time, later: Time, turn: nat)
    requires Kept(t, log, now, turn) && now <= later && u.turn == t.turn && u.turnOpen == t.turnOpen
    ensures Kept(u, log, later, turn)
  {
  }

  lemma SamePlaces(t: Translator, a: seq<Turn>, b: seq<Turn>, now: Time)
    requires Placed(t, b, now) && SameTurns(a, b)
    ensures Placed(t, a, now)
  {
    assert forall i | 0 <= i < |a| :: SameTurn(a[i], b[i]);
    assert forall i | 0 <= i < |a| :: Boundary(a[i]) == Boundary(b[i]) && (WellTimed(b[i]) ==> WellTimed(a[i]));
    hide Boundary, WellTimed;
  }

  lemma KeptOutside(t: Translator, log: seq<Observation>, more: seq<Observation>, now: Time, turn: nat)
    requires Kept(t, log, now, turn) && forall i | 0 <= i < |more| :: OutsideTurns(more[i])
    ensures Kept(t, log + more, now, turn)
  {
    OutsideJoin(log, more, turn);
    hide FoldAll, StartsOf, EndsOf, Placed;
    SamePlaces(t, FoldAll(log + more).turns, FoldAll(log).turns, now);
    if 1 <= turn <= |FoldAll(log).turns| {
      assert SameTurn(FoldAll(log + more).turns[turn - 1], FoldAll(log).turns[turn - 1]);
    }
  }

  lemma StartPlaces(t: Translator, turns: seq<Turn>, at: Time, pending: seq<Injection>)
    requires Placed(t, turns, at)
    ensures Placed(Translator(t.turn + 1, true, pending), turns + [NewTurn(t.turn + 1, at)], at)
  {
  }

  lemma KeptAtStart(t: Translator, log: seq<Observation>, at: Time, turn: nat, pending: seq<Injection>)
    requires Kept(t, log, at, turn)
    ensures Kept(Translator(t.turn + 1, true, pending), log + [TurnStarted(t.turn + 1, at)], at, turn)
  {
    LogAppend(log, TurnStarted(t.turn + 1, at), turn);
    StartPlaces(t, FoldAll(log).turns, at, pending);
    assert |FoldAll(log).turns| == t.turn;
    hide FoldAll, StartsOf, EndsOf, Placed;
  }

  lemma EndPlaces(t: Translator, turns: seq<Turn>, usage: TurnUsage, at: Time)
    requires Placed(t, turns, at) && t.turnOpen
    ensures t.turn == |turns| > 0 && FindOpen(turns, t.turn) == t.turn - 1 && turns[t.turn - 1].endedAt.None?
    ensures Placed(t.(turnOpen := false), turns[t.turn - 1 := EndTurn(turns[t.turn - 1], usage, at)], at)
  {
    var last := t.turn - 1;
    assert WellTimed(turns[last]) && Boundary(turns[last]) <= at;
    assert FindOpen(turns, t.turn) == last;
    hide FindOpen;
    var after := turns[last := EndTurn(turns[last], usage, at)];
    assert WellTimed(after[last]) && Boundary(after[last]) == at;
    assert after[last].ordinal == turns[last].ordinal && after[last].startedAt == turns[last].startedAt
        && after[last].endedAt.Some?;
    hide WellTimed, Boundary, EndTurn;
  }

  lemma KeptAtEnd(t: Translator, log: seq<Observation>, usage: TurnUsage, at: Time, turn: nat)
    requires Kept(t, log, at, turn) && t.turnOpen
    ensures Kept(t.(turnOpen := false), log + [TurnEnded(t.turn, usage, at)], at, turn)
  {
    var turns := FoldAll(log).turns;
    LogAppend(log, TurnEnded(t.turn, usage, at), turn);
    EndPlaces(t, turns, usage, at);
    hide FoldAll, StartsOf, EndsOf, Placed, FindOpen;
    assert FoldAll(log + [TurnEnded(t.turn, usage, at)]).turns
        == turns[t.turn - 1 := EndTurn(turns[t.turn - 1], usage, at)];
    hide Observe, Indexed;
  }

  /**
   * Whatever the events: turns are numbered 1 to n, each starts once and ends at most once, and none begins before the
   * one before it was last seen.
   */
  lemma {:induction false} HostKeepsTurnsInSequence(steps: seq<LogStep>, now: Time, turn: nat)
    requires Clocked(steps) && forall i | 0 <= i < |steps| && steps[i].Host? :: steps[i].at <= now
    ensures Kept(StateAfter(steps), Log(steps), now, turn)
    decreases |steps|
  {
    if steps == [] {
      return;
    }
    var n := |steps| - 1;
    var front, last := steps[..n], steps[n];
    var t, log := StateAfter(front), Log(front);
    assert StateAfter(steps) == Advance(t, last) && Log(steps) == log + Emitted(t, last);
    hide StateAfter, Log, Kept, FoldAll, Advance, Emitted;
    HostKeepsTurnsInSequence(front, if last.Host? then last.at else now, turn);
    StepKeepsTurns(t, log, last, now, turn);
  }

  lemma StepKeepsTurns(t: Translator, log: seq<Observation>, step: LogStep, now: Time, turn: nat)
    requires if step.Host? then Kept(t, log, step.at, turn) && step.at <= now
        else Kept(t, log, now, turn) && OutsideTurns(step.o)
    ensures Kept(Advance(t, step), log + Emitted(t, step), now, turn)
  {
    hide Kept;
    match step
    case Host(Event(TurnStart(steering)), at) =>
      var pending, delivered := Remaining(t.pending, QueueOf(steering)),
          DeliveredAt(Delivered(t.pending, QueueOf(steering)), at);
      var u := Translator(t.turn + 1, true, pending);
      KeptAtStart(t, log, at, turn, pending);
      KeptOutside(u, log + [TurnStarted(t.turn + 1, at)], delivered, at, turn);
      assert log + Emitted(t, step) == log + [TurnStarted(t.turn + 1, at)] + delivered;
      KeptLater(u, u, log + Emitted(t, step), at, now, turn);
    case Host(Event(TurnEnd(usage, contextUsage)), at) =>
      if t.turnOpen {
        KeptAtEnd(t, log, TurnUsageOf(usage, contextUsage), at, turn);
      } else {
        assert log + Emitted(t, step) == log;
      }
      KeptLater(t.(turnOpen := false), t.(turnOpen := false), log + Emitted(t, step), at, now, turn);
    case Host(_, at) =>
      KeptOutside(t, log, Emitted(t, step), at, turn);
      KeptLater(t, Advance(t, step), log + Emitted(t, step), at, now, turn);
    case Other(_) => KeptOutside(t, log, Emitted(t, step), now, turn);
  }

  /**
   * For any history with a clock that never goes back, the timeline's busy and idle time fill the span, less what
   * unfinished turns leave open.
   */
  lemma HostTimeAddsUp(steps: seq<LogStep>, now: Time)
    requires Clocked(steps) && forall i | 0 <= i < |steps| && steps[i].Host? :: steps[i].at <= now
    requires FoldAll(Log(steps)).turns != []
    ensures var turns := FoldAll(Log(steps)).turns;
      && BusyMillis(turns) + IdleMillis(turns) + Unaccounted(turns) == Boundary(turns[|turns| - 1]) - turns[0].startedAt
      && BusyMillis(turns) + IdleMillis(turns) <= Boundary(turns[|turns| - 1]) - turns[0].startedAt
      && ((forall i | 0 <= i < |turns| - 1 :: turns[i].endedAt.Some?)
          ==> BusyMillis(turns) + IdleMillis(turns) == Boundary(turns[|turns| - 1]) - turns[0].startedAt)
  {
    HostKeepsTurnsInSequence(steps, now, 0);
    Telescopes(FoldAll(Log(steps)).turns);
  }

  // ----- where a call is attached

  /** As documented, a call starts inside a turn: the last one is open at that moment. */
  predicate TurnOpen(turns: seq<Turn>) {
    turns != [] && turns[|turns| - 1].endedAt.None?
  }

  /**
   * A starting call is attached to a turn exactly when any turn has started, and then to the last one, behind the calls
   * it has; that is the documented rule only while the last turn is open or there is none.
   */
  lemma AttachesToLastTurn(log: seq<Observation>, callId: string, toolName: string, at: Time)
    ensures var before, after := FoldAll(log), FoldAll(log + [ToolStarted(callId, toolName, at)]);
      var turns, call := before.turns, NewCall(|before.calls|, callId, toolName, at);
      && after.calls == before.calls + [call]
      && (turns == [] ==> after.turns == [])
      && (turns != [] ==>
            var n := |turns| - 1;
            after.turns == turns[..n] + [turns[n].(toolCalls := turns[n].toolCalls + [call])])
      && (turns != [] <==> AnyTurn(log))
      && (AsDocumented(turns, after.turns, call) <==> turns == [] || TurnOpen(turns))
  {
    var o := ToolStarted(callId, toolName, at);
    LogAppend(log, o, 0);
    ViewsAgree(log);
    hide FoldAll, EarlyCalls;
    var f, call := FoldAll(log), NewCall(|FoldAll(log).calls|, callId, toolName, at);
    if f.turns != [] {
      FlatAttach(f.turns, call);
    }
  }

  /** The turn that was open takes the call; with no turn open, none does. */
  predicate AsDocumented(turns: seq<Turn>, after: seq<Turn>, call: Call) {
    if TurnOpen(turns) then after == Attach(turns, call) else after == turns
  }

  /** A host whose one turn ended before the call started. */
  function CallAfterTurn(at: Time): seq<LogStep> {
    [Host(Event(TurnStart(None)), at), Host(Event(TurnEnd(None, None)), at),
        Host(Event(ToolExecutionStart("c", "t")), at)]
  }

  lemma LogGrows(steps: seq<LogStep>, step: LogStep)
    ensures Log(steps + [step]) == Log(steps) + Emitted(StateAfter(steps), step)
    ensures StateAfter(steps + [step]) == Advance(StateAfter(steps), step)
  {
    assert (steps + [step])[..|steps|] == steps;
  }

  lemma CallAfterTurnLog(at: Time)
    ensures Clocked(CallAfterTurn(at))
    ensures Log(CallAfterTurn(at))
        == [TurnStarted(1, at), TurnEnded(1, TurnUsageOf(None, None), at), ToolStarted("c", "t", at)]
  {
    var steps := CallAfterTurn(at);
    var one, two := [steps[0]], [steps[0], steps[1]];
    assert steps == two + [steps[2]] && two == one + [steps[1]] && one == [] + [steps[0]];
    LogGrows([], steps[0]);
    LogGrows(one, steps[1]);
    LogGrows(two, steps[2]);
  }

  /** There the call is shown inside the turn that was already over. */
  lemma CallLandsInEndedTurn(at: Time)
    ensures var turns := FoldAll(Log(CallAfterTurn(at))).turns;
      |turns| == 1 && turns[0].endedAt == Some(at) && turns[0].toolCalls == [NewCall(0, "c", "t", at)]
  {
    var start, end, call := TurnStarted(1, at), TurnEnded(1, TurnUsageOf(None, None), at), ToolStarted("c", "t", at);
    CallAfterTurnLog(at);
    hide Log, CallAfterTurn, TurnUsageOf;
    assert [start, end, call] == [start, end] + [call] && [start, end] == [start] + [end] && [start] == [] + [start];
    LogAppend([], start, 0);
    LogAppend([start], end, 0);
    LogAppend([start, end], call, 0);
    hide StartsOf, EndsOf;
  }
}
