/**
 * Everything a timeline shows stands in its log (packages/core/src/session-timeline.ts,
 * apps/session-host/src/observations.ts).
 */
module TimelineLaws {
  import opened Wrappers
  import opened Sorting
  import opened Observations
  import opened Timeline
  import opened TimelineTotals

  // ----- from the timeline back to the log

  /** Entry `k` ends the turn, and everything the turn shows of its end is that entry's. */
  ghost predicate EndsTurn(log: seq<Observation>, turn: Turn, k: nat) {
    && k < |log| && log[k].TurnEnded? && log[k].turn == turn.ordinal
    && turn.endedAt == Some(log[k].at) && turn.elapsedMillis == Some(log[k].at - turn.startedAt)
    && turn.usage == Some(log[k].usage) && turn.costUsd == log[k].usage.costUsd
  }

  /** The turn was started by an entry of its number and time, and ended by a later one or not at all. */
  ghost predicate TurnStandsIn(log: seq<Observation>, turn: Turn) {
    exists j: nat | j < |log| && log[j] == TurnStarted(turn.ordinal, turn.startedAt) ::
      || (turn.endedAt.None? && turn.elapsedMillis.None? && turn.usage.None? && turn.costUsd.None?)
      || exists k: nat :: j < k && EndsTurn(log, turn, k)
  }

  ghost predicate EndsCall(log: seq<Observation>, call: Call, k: nat) {
    && k < |log| && log[k].ToolFinished? && log[k].callId == call.callId
    && call.endedAt == Some(log[k].at) && call.elapsedMillis == Some(log[k].at - call.startedAt)
    && call.failed == Some(log[k].isError)
  }

  ghost predicate CallStandsIn(log: seq<Observation>, call: Call) {
    exists j: nat | j < |log| && log[j] == ToolStarted(call.callId, call.toolName, call.startedAt) ::
      || (call.endedAt.None? && call.elapsedMillis.None? && call.failed.None?)
      || exists k: nat :: j < k && EndsCall(log, call, k)
  }

  lemma TurnStandsOn(log: seq<Observation>, o: Observation, turn: Turn)
    requires TurnStandsIn(log, turn)
    ensures TurnStandsIn(log + [o], turn)
  {
    var j: nat :| j < |log| && log[j] == TurnStarted(turn.ordinal, turn.startedAt)
      && ((turn.endedAt.None? && turn.elapsedMillis.None? && turn.usage.None? && turn.costUsd.None?)
          || exists k: nat :: j < k && EndsTurn(log, turn, k));
    assert (log + [o])[j] == log[j];
    if k: nat :| j < k && EndsTurn(log, turn, k) {
      assert EndsTurn(log + [o], turn, k);
    }
  }

  lemma CallStandsOn(log: seq<Observation>, o: Observation, call: Call)
    requires CallStandsIn(log, call)
    ensures CallStandsIn(log + [o], call)
  {
    var j: nat :| j < |log| && log[j] == ToolStarted(call.callId, call.toolName, call.startedAt)
      && ((call.endedAt.None? && call.elapsedMillis.None? && call.failed.None?)
          || exists k: nat :: j < k && EndsCall(log, call, k));
    assert (log + [o])[j] == log[j];
    if k: nat :| j < k && EndsCall(log, call, k) {
      assert EndsCall(log + [o], call, k);
    }
  }

  /** An open turn, ended by the entry that comes next. */
  lemma EndedTurnStands(log: seq<Observation>, turn: Turn, usage: TurnUsage, at: Time)
    requires TurnStandsIn(log, turn) && turn.endedAt.None?
    ensures TurnStandsIn(log + [TurnEnded(turn.ordinal, usage, at)], EndTurn(turn, usage, at))
  {
    var all, ended := log + [TurnEnded(turn.ordinal, usage, at)], EndTurn(turn, usage, at);
    var j: nat :| j < |log| && log[j] == TurnStarted(turn.ordinal, turn.startedAt);
    assert all[j] == TurnStarted(ended.ordinal, ended.startedAt);
    assert EndsTurn(all, ended, |log|);
  }

  lemma SettledCallStands(log: seq<Observation>, call: Call, isError: bool, at: Time)
    requires CallStandsIn(log, call) && call.endedAt.None?
    ensures CallStandsIn(log + [ToolFinished(call.callId, isError, at)], SettleCall(call, isError, at))
  {
    var all, settled := log + [ToolFinished(call.callId, isError, at)], SettleCall(call, isError, at);
    var j: nat :| j < |log| && log[j] == ToolStarted(call.callId, call.toolName, call.startedAt);
    assert all[j] == ToolStarted(settled.callId, settled.toolName, settled.startedAt);
    assert EndsCall(all, settled, |log|);
  }

  ghost predicate TurnsStand(log: seq<Observation>, turns: seq<Turn>) {
    forall i | 0 <= i < |turns| :: TurnStandsIn(log, turns[i])
  }

  ghost predicate CallsStand(log: seq<Observation>, calls: seq<Call>) {
    forall i | 0 <= i < |calls| :: CallStandsIn(log, calls[i])
  }

  lemma SameEnds(log: seq<Observation>, turn: Turn, other: Turn)
    requires TurnStandsIn(log, turn) && other == turn.(toolCalls := other.toolCalls)
    ensures TurnStandsIn(log, other)
  {
    var j: nat :| j < |log| && log[j] == TurnStarted(turn.ordinal, turn.startedAt)
      && ((turn.endedAt.None? && turn.elapsedMillis.None? && turn.usage.None? && turn.costUsd.None?)
          || exists k: nat :: j < k && EndsTurn(log, turn, k));
    assert log[j] == TurnStarted(other.ordinal, other.startedAt);
    if k: nat :| j < k && EndsTurn(log, turn, k) {
      assert EndsTurn(log, other, k);
    }
  }

  lemma TurnsStandOn(log: seq<Observation>, f: Fold, o: Observation)
    requires Indexed(f) && TurnsStand(log, f.turns)
    ensures TurnsStand(log + [o], Observe(f, o).turns)
  {
    var turns := Observe(f, o).turns;
    hide Swap;
    forall i | 0 <= i < |turns|
      ensures TurnStandsIn(log + [o], turns[i])
    {
      if i == |f.turns| {
        assert (log + [o])[|log|] == TurnStarted(turns[i].ordinal, turns[i].startedAt);
      } else {
        TurnStandsOn(log, o, f.turns[i]);
        if o.TurnEnded? && i == FindOpen(f.turns, o.turn) {
          EndedTurnStands(log, f.turns[i], o.usage, o.at);
        } else {
          SameEnds(log + [o], f.turns[i], turns[i]);
        }
      }
    }
  }

  lemma CallsStandOn(log: seq<Observation>, f: Fold, o: Observation)
    requires Indexed(f) && CallsStand(log, f.calls)
    ensures CallsStand(log + [o], Observe(f, o).calls)
  {
    var calls := Observe(f, o).calls;
    hide Swap, SwapIn, Attach, FindOpen;
    forall i | 0 <= i < |calls|
      ensures CallStandsIn(log + [o], calls[i])
    {
      if i == |f.calls| {
        assert (log + [o])[|log|] == ToolStarted(calls[i].callId, calls[i].toolName, calls[i].startedAt);
      } else {
        CallStandsOn(log, o, f.calls[i]);
        if o.ToolFinished? && o.callId in f.open && i == f.open[o.callId] {
          SettledCallStands(log, f.calls[i], o.isError, o.at);
        }
      }
    }
  }

  /**
   * Every turn and every call of the timeline stands in the log: begun by an entry of its own, and either open or ended
   * by a later one, whose time, usage, cost or failure it shows.
   */
  lemma {:induction false} EverythingStands(log: seq<Observation>)
    ensures TurnsStand(log, FoldAll(log).turns) && CallsStand(log, FoldAll(log).calls)
    decreases |log|
  {
    if log != [] {
      var n := |log| - 1;
      EverythingStands(log[..n]);
      assert log == log[..n] + [log[n]];
      var f := FoldAll(log[..n]);
      assert FoldAll(log) == Observe(f, log[n]);
      hide FoldAll, Observe, TurnsStand, CallsStand;
      TurnsStandOn(log[..n], f, log[n]);
      CallsStandOn(log[..n], f, log[n]);
    }
  }

  // ----- from the log on to the timeline

  /** How many entries of the log begin a turn, and how many a call. */
  function Begins(log: seq<Observation>): (r: (nat, nat))
    decreases |log|
  {
    if log == [] then (0, 0)
    else
      var before, o := Begins(log[..|log| - 1]), log[|log| - 1];
      (before.0 + if o.TurnStarted? then 1 else 0, before.1 + if o.ToolStarted? then 1 else 0)
  }

  /** No turn and no call is dropped, doubled or made up. */
  lemma {:induction false} NothingDropped(log: seq<Observation>)
    ensures |FoldAll(log).turns| == Begins(log).0 && |FoldAll(log).calls| == Begins(log).1
    decreases |log|
  {
    if log != [] {
      NothingDropped(log[..|log| - 1]);
    }
  }

  /** What ending the i-th turn makes of the turns. */
  ghost predicate Closed(turns: seq<Turn>, after: seq<Turn>, i: nat, usage: TurnUsage, at: Time) {
    && i < |after| == |turns| && (forall k | 0 <= k < |turns| && k != i :: after[k] == turns[k])
    && after[i].endedAt == Some(at) && after[i].usage == Some(usage) && after[i].costUsd == usage.costUsd
    && after[i].elapsedMillis == Some(at - turns[i].startedAt)
    && after[i].ordinal == turns[i].ordinal && after[i].startedAt == turns[i].startedAt
    && after[i].toolCalls == turns[i].toolCalls
  }

  lemma EndCloses(f: Fold, usage: TurnUsage, at: Time, i: nat)
    requires Indexed(f) && i < |f.turns| && f.turns[i].endedAt.None?
    requires forall k | 0 <= k < i :: f.turns[k].ordinal != f.turns[i].ordinal || f.turns[k].endedAt.Some?
    ensures Closed(f.turns, Observe(f, TurnEnded(f.turns[i].ordinal, usage, at)).turns, i, usage, at)
  {
    assert FindOpen(f.turns, f.turns[i].ordinal) == i;
    hide FindOpen, Indexed;
  }

  /** An end closes the first turn of its number still open, and no other; without one it changes nothing. */
  lemma EndLands(log: seq<Observation>, usage: TurnUsage, at: Time, i: nat)
    requires i < |FoldAll(log).turns| && FoldAll(log).turns[i].endedAt.None?
    requires forall k | 0 <= k < i ::
      FoldAll(log).turns[k].ordinal != FoldAll(log).turns[i].ordinal || FoldAll(log).turns[k].endedAt.Some?
    ensures var turns := FoldAll(log).turns;
      Closed(turns, FoldAll(log + [TurnEnded(turns[i].ordinal, usage, at)]).turns, i, usage, at)
  {
    LogAppend(log, TurnEnded(FoldAll(log).turns[i].ordinal, usage, at), 0);
    EndCloses(FoldAll(log), usage, at, i);
    hide FoldAll, Observe, Closed, Indexed;
  }

  lemma EndWithoutTurn(log: seq<Observation>, turn: nat, usage: TurnUsage, at: Time)
    requires forall k | 0 <= k < |FoldAll(log).turns| ::
      FoldAll(log).turns[k].ordinal != turn || FoldAll(log).turns[k].endedAt.Some?
    ensures FoldAll(log + [TurnEnded(turn, usage, at)]).turns == FoldAll(log).turns
  {
    LogAppend(log, TurnEnded(turn, usage, at), 0);
    hide FoldAll;
  }

  /** The last call that started under this id. */
  ghost predicate LastOf(calls: seq<Call>, id: string, i: nat) {
    i < |calls| && calls[i].callId == id && forall k | i < k < |calls| :: calls[k].callId != id
  }

  /** The open id names its last call, exactly while that one runs. */
  ghost predicate OpensLast(f: Fold) {
    && (forall id | id in f.open :: LastOf(f.calls, id, f.open[id]))
    && (forall id, i: nat | LastOf(f.calls, id, i) && f.calls[i].endedAt.None? :: id in f.open && f.open[id] == i)
  }

  lemma OneLast(calls: seq<Call>, id: string, i: nat, k: nat)
    requires LastOf(calls, id, i) && LastOf(calls, id, k)
    ensures i == k
  {
  }

  lemma StepOpensLast(f: Fold, o: Observation)
    requires Indexed(f) && OpensLast(f)
    ensures OpensLast(Observe(f, o))
  {
    match o
    case ToolStarted(callId, toolName, at) =>
      hide OpensLast, Observe;
      StartOpensLast(f, callId, toolName, at);
    case ToolFinished(callId, isError, at) =>
      hide OpensLast, Observe;
      FinishOpensLast(f, callId, isError, at);
    case _ => hide Swap, SwapIn, Attach, FindOpen, LastOf;
  }

  lemma FinishOpensLast(f: Fold, callId: string, isError: bool, at: Time)
    requires Indexed(f) && OpensLast(f)
    ensures OpensLast(Observe(f, ToolFinished(callId, isError, at)))
  {
    var g := Observe(f, ToolFinished(callId, isError, at));
    hide Swap, SwapIn;
    forall id, i: nat
      ensures LastOf(g.calls, id, i) <==> LastOf(f.calls, id, i)
    {
      SameIdsSameLast(f.calls, g.calls, id, i);
    }
    assert callId in f.open ==> LastOf(f.calls, callId, f.open[callId]);
    forall id, i: nat | LastOf(f.calls, id, i) && id in f.open
      ensures i == f.open[id]
    {
      OneLast(f.calls, id, i, f.open[id]);
    }
    hide LastOf;
  }

  lemma SameIdsSameLast(a: seq<Call>, b: seq<Call>, id: string, i: nat)
    requires |a| == |b| && forall k | 0 <= k < |a| :: a[k].callId == b[k].callId
    ensures LastOf(a, id, i) <==> LastOf(b, id, i)
  {
  }

  lemma NewLast(calls: seq<Call>, call: Call, id: string, i: nat)
    ensures LastOf(calls + [call], id, i) <==> if id == call.callId then i == |calls| else LastOf(calls, id, i)
  {
    var all := calls + [call];
    assert all[|calls|] == call && forall k | 0 <= k < |calls| :: all[k] == calls[k];
    if i < |calls| && id == call.callId {
      assert all[|calls|].callId == id;
    }
  }

  lemma StartOpensLast(f: Fold, callId: string, toolName: string, at: Time)
    requires Indexed(f) && OpensLast(f)
    ensures OpensLast(Observe(f, ToolStarted(callId, toolName, at)))
  {
    var g := Observe(f, ToolStarted(callId, toolName, at));
    var call := NewCall(|f.calls|, callId, toolName, at);
    assert g.calls == f.calls + [call] && g.open == f.open[callId := |f.calls|];
    hide Observe, Indexed;
    forall id, i: nat
      ensures LastOf(g.calls, id, i) <==> if id == callId then i == |f.calls| else LastOf(f.calls, id, i)
    {
      NewLast(f.calls, call, id, i);
    }
    hide LastOf;
  }

  lemma {:induction false} LogOpensLast(log: seq<Observation>)
    ensures OpensLast(FoldAll(log))
    decreases |log|
  {
    if log != [] {
      LogOpensLast(log[..|log| - 1]);
      hide OpensLast, Observe;
      StepOpensLast(FoldAll(log[..|log| - 1]), log[|log| - 1]);
    }
  }

  /** What finishing a call id makes of the calls: its last one is settled if it still ran, and none else changes. */
  ghost predicate Finished(calls: seq<Call>, after: seq<Call>, callId: string, isError: bool, at: Time) {
    && |after| == |calls|
    && forall i: nat | i < |calls| ::
         if LastOf(calls, callId, i) && calls[i].endedAt.None?
         then after[i].endedAt == Some(at) && after[i].failed == Some(isError)
              && after[i].elapsedMillis == Some(at - calls[i].startedAt) && after[i].serial == calls[i].serial
              && after[i].callId == callId && after[i].toolName == calls[i].toolName
              && after[i].startedAt == calls[i].startedAt
         else after[i] == calls[i]
  }

  lemma FinishSettles(f: Fold, callId: string, isError: bool, at: Time)
    requires Indexed(f) && OpensLast(f)
    ensures Finished(f.calls, Observe(f, ToolFinished(callId, isError, at)).calls, callId, isError, at)
  {
    hide SwapIn;
    if callId in f.open {
      forall i: nat | LastOf(f.calls, callId, i)
        ensures i == f.open[callId]
      {
        OneLast(f.calls, callId, i, f.open[callId]);
      }
      hide LastOf;
    }
  }

  /** A finish settles the last call of its id if that still runs, and otherwise no call at all. */
  lemma FinishLands(log: seq<Observation>, callId: string, isError: bool, at: Time)
    ensures Finished(FoldAll(log).calls, FoldAll(log + [ToolFinished(callId, isError, at)]).calls, callId, isError, at)
  {
    LogAppend(log, ToolFinished(callId, isError, at), 0);
    LogOpensLast(log);
    FinishSettles(FoldAll(log), callId, isError, at);
    hide FoldAll, Observe, Finished, OpensLast, Indexed;
  }

  // ----- the host's events

  /**
   * A turn's end is reported once, while the turn is open, with the usage the runtime gave; a call's, with its failure.
   */
  lemma ReportsLaw(t: Translator, usage: Option<EventUsage>, contextUsage: Option<ContextUsage>, at: Time)
    ensures !t.turnOpen ==> Observed(t, TurnEnd(usage, contextUsage), at) == []
    ensures t.turnOpen ==>
      && |Observed(t, TurnEnd(usage, contextUsage), at)| == 1
      && var o := Observed(t, TurnEnd(usage, contextUsage), at)[0];
         && o.TurnEnded? && o.turn == t.turn && o.at == at && o.usage.contextWindow == contextUsage
         && (usage.None? ==>
               && o.usage.inputTokens == 0 && o.usage.outputTokens == 0 && o.usage.costUsd.None?
               && o.usage.cacheReadTokens.None? && o.usage.cacheWriteTokens.None?)
         && (usage.Some? ==>
               && o.usage.inputTokens == usage.value.input && o.usage.outputTokens == usage.value.output
               && o.usage.cacheReadTokens == Some(usage.value.cacheRead)
               && o.usage.cacheWriteTokens == Some(usage.value.cacheWrite) && o.usage.costUsd == Some(usage.value.cost))
    ensures forall callId, isError ::
      Observed(t, ToolExecutionEnd(callId, isError), at) == [ToolFinished(callId, isError == Some(true), at)]
    ensures forall source: Option<string>, message ::
      && Observed(t, Notice(false, source, message), at) == []
      && Observed(t, Notice(true, None, message), at) == [RuntimeError(message, false, at)]
    ensures forall text ::
      && Observed(t, TextDelta(text), at) == [OutputDelta(text, at)]
      && Observed(t, ThinkingDelta(text), at) == [ReasoningDelta(text, at)]
    ensures Observed(t, AutoCompactionStart, at) == [CompactionStarted(at)]
    ensures Observed(t, AutoCompactionEnd, at) == [CompactionFinished(at)]
  {
  }

  /**
   * A turn opens with the next number, and is told of the injections one by one: those of which the runtime's queue
   * still holds a copy stay pending, and with no queue none does.
   */
  lemma TurnOpensLaw(t: Translator, queue: Option<seq<string>>, at: Time)
    requires Distinct(Ids(t.pending))
    ensures var seen, after := Observed(t, TurnStart(queue), at), After(t, TurnStart(queue));
      && |seen| > 0 && seen[0] == TurnStarted(t.turn + 1, at) && after.turn == t.turn + 1 && after.turnOpen
      && (forall k | 0 < k < |seen| :: seen[k].InjectionDelivered? && seen[k].at == at)
      && (forall i | 0 <= i < |t.pending| ::
            t.pending[i] in after.pending <==> InjectionDelivered(t.pending[i].id, at) !in seen)
      && (forall i | 0 <= i < |t.pending| ::
            t.pending[i] in after.pending
            <==> queue.Some? && CountText(t.pending[..i], t.pending[i].text) < multiset(queue.value)[t.pending[i].text])
  {
    var held := QueueOf(queue);
    var ids := Delivered(t.pending, held);
    forall i | 0 <= i < |t.pending|
      ensures t.pending[i] in Remaining(t.pending, held) <==> StillQueued(t.pending, held, i)
      ensures InjectionDelivered(t.pending[i].id, at) in DeliveredAt(ids, at) <==> !StillQueued(t.pending, held, i)
    {
      SideOf(t.pending, held, i);
      hide StillQueued, Remaining, Delivered;
      InSight(ids, t.pending[i].id, at);
    }
    hide Remaining, Delivered, CountText, Distinct;
  }

  lemma InSight(ids: seq<InjectionId>, id: InjectionId, at: Time)
    ensures InjectionDelivered(id, at) in DeliveredAt(ids, at) <==> id in ids
  {
    if id in ids {
      var k :| 0 <= k < |ids| && ids[k] == id;
      assert DeliveredAt(ids, at)[k] == InjectionDelivered(id, at);
    }
  }

  lemma SideOf(pending: seq<Injection>, held: seq<string>, i: nat)
    requires Distinct(Ids(pending)) && i < |pending|
    ensures pending[i] in Remaining(pending, held) <==> StillQueued(pending, held, i)
    ensures pending[i].id in Delivered(pending, held) <==> !StillQueued(pending, held, i)
  {
    var gone := Unqueued(pending, held);
    DeliversExactlyUnqueued(pending, held);
    SplitBy(pending, gone);
    hide StillQueued, Remaining, Delivered, Unqueued, Observations.Without, Only;
    var only := Only(pending, gone);
    if pending[i].id in gone {
      assert pending[i] in only;
      var k :| 0 <= k < |only| && only[k] == pending[i];
      assert Ids(only)[k] == pending[i].id;
    }
    if pending[i].id in Ids(only) {
      var k :| 0 <= k < |only| && only[k].id == pending[i].id;
      assert only[k] in only;
    }
  }

  lemma SpanGrows(f: Fold, o: Observation)
    requires Indexed(f)
    ensures Observe(f, o).startedAt == if f.startedAt.None? then Some(o.at) else f.startedAt
    ensures Observe(f, o).endedAt == if o.SessionEnded? then Some(o.at) else f.endedAt
  {
    hide Indexed, FindOpen, SwapIn, Attach;
  }

  /** A session's timeline begins with its first observation and ends with the last that says the session is over. */
  lemma {:induction false} SpanLaw(log: seq<Observation>)
    ensures FoldAll(log).startedAt == if log == [] then None else Some(log[0].at)
    ensures FoldAll(log).endedAt.None? <==> forall k | 0 <= k < |log| :: !log[k].SessionEnded?
    ensures forall k | 0 <= k < |log| && log[k].SessionEnded? && forall j | k < j < |log| :: !log[j].SessionEnded? ::
      FoldAll(log).endedAt == Some(log[k].at)
    decreases |log|
  {
    if log != [] {
      var front, last := log[..|log| - 1], log[|log| - 1];
      SpanLaw(front);
      SpanGrows(FoldAll(front), last);
      hide Indexed, Observe;
      assert forall k | 0 <= k < |front| :: log[k] == front[k];
    }
  }

  /**
   * From the runtime's event to the timeline: when the host hears that the open turn is over, the last turn shows that
   * end, with the tokens and the cost of the event, or none if it gave none.
   */
  lemma TurnShowsItsEvent(steps: seq<LogStep>, usage: Option<EventUsage>, contextUsage: Option<ContextUsage>, at: Time)
    requires Clocked(steps) && StateAfter(steps).turnOpen
    requires forall i | 0 <= i < |steps| && steps[i].Host? :: steps[i].at <= at
    ensures var turns, after :=
        FoldAll(Log(steps)).turns, FoldAll(Log(steps + [Host(Event(TurnEnd(usage, contextUsage)), at)])).turns;
      && |turns| > 0 && |after| == |turns|
      && var n := |turns| - 1;
         && after[n].endedAt == Some(at) && after[n].elapsedMillis == Some(at - turns[n].startedAt)
         && after[n].usage.Some? && after[n].usage.value.contextWindow == contextUsage
         && (usage.Some? ==>
               && after[n].costUsd == Some(usage.value.cost) && after[n].usage.value.inputTokens == usage.value.input
               && after[n].usage.value.outputTokens == usage.value.output)
         && (usage.None? ==> after[n].costUsd.None? && after[n].usage.value.inputTokens == 0)
  {
    hide FoldAll, Log, Clocked, StateAfter;
    TurnIsClosed(steps, usage, contextUsage, at);
  }

  lemma TurnIsClosed(steps: seq<LogStep>, usage: Option<EventUsage>, contextUsage: Option<ContextUsage>, at: Time)
    requires Clocked(steps) && StateAfter(steps).turnOpen
    requires forall i | 0 <= i < |steps| && steps[i].Host? :: steps[i].at <= at
    ensures var turns, after :=
        FoldAll(Log(steps)).turns, FoldAll(Log(steps + [Host(Event(TurnEnd(usage, contextUsage)), at)])).turns;
      |turns| > 0 && Closed(turns, after, |turns| - 1, TurnUsageOf(usage, contextUsage), at)
  {
    hide FoldAll, Log, Clocked, StateAfter, Closed, TurnUsageOf, Advance;
    var t, log, step := StateAfter(steps), Log(steps), Host(Event(TurnEnd(usage, contextUsage)), at);
    LogGrows(steps, step);
    OpenTurnIsLast(steps, at);
    assert Emitted(t, step) == [TurnEnded(t.turn, TurnUsageOf(usage, contextUsage), at)];
    EndLands(log, TurnUsageOf(usage, contextUsage), at, |FoldAll(log).turns| - 1);
  }

  /** While the host has a turn open, it is the timeline's last, and no turn before has its number. */
  lemma OpenTurnIsLast(steps: seq<LogStep>, at: Time)
    requires Clocked(steps) && StateAfter(steps).turnOpen
    requires forall i | 0 <= i < |steps| && steps[i].Host? :: steps[i].at <= at
    ensures var turns := FoldAll(Log(steps)).turns;
      && |turns| > 0 && turns[|turns| - 1].ordinal == StateAfter(steps).turn && turns[|turns| - 1].endedAt.None?
      && forall k | 0 <= k < |turns| - 1 :: turns[k].ordinal != turns[|turns| - 1].ordinal
  {
    HostKeepsTurnsInSequence(steps, at, 0);
    hide FoldAll, Log, Clocked, StateAfter, StartsOf, EndsOf, InSequence;
  }
}
