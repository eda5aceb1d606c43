/** What starts, pauses, stops and ends a batch: each exactly by its own gesture, and one stop that does not hold. */
module QueueStops {
  import opened Wrappers
  import opened RunQueue
  import opened QueueRuns

  // ----- each step belongs to one batch

  function BatchIn(q: Queue, e: nat): nat {
    if e < |q.entries| then q.entries[e].batch else 0
  }

  /** The batch a step acts on; starting a batch and reclaiming after a restart act on none in particular. */
  function BatchAt(q: Queue, step: Step): nat {
    match step
    case Initiate(_, _, _) => |q.batches|
    case Resume(b) => b
    case FinishResume(b, _) => b
    case Reclaim => 0
    case Cancel(e, _) => BatchIn(q, e)
    case Confirm(e, _) => BatchIn(q, e)
    case Decline(e, _) => BatchIn(q, e)
    case Abandon(e, _, _) => BatchIn(q, e)
    case Reask(e, _) => BatchIn(q, e)
    case Start(e, _) => BatchIn(q, e)
    case Bind(e, _, _, _, _) => BatchIn(q, e)
    case Refuse(e, _, _) => BatchIn(q, e)
    case SessionEnded(e, _, _) => BatchIn(q, e)
    case ReclaimOne(e) => BatchIn(q, e)
  }

  ghost predicate OnlyIn(q: Queue, r: Queue, b: nat) {
    && |r.batches| == |q.batches| && |r.entries| == |q.entries|
    && (forall c | 0 <= c < |q.batches| && c != b :: r.batches[c] == q.batches[c])
    && (forall i | 0 <= i < |q.entries| && q.entries[i].batch != b :: r.entries[i] == q.entries[i])
    && (forall i | 0 <= i < |q.entries| && q.entries[i].batch == b :: r.entries[i].batch == b)
  }

  lemma OnlyInBoth(q: Queue, r: Queue, s: Queue, b: nat)
    requires OnlyIn(q, r, b) && OnlyIn(r, s, b)
    ensures OnlyIn(q, s, b)
  {
  }

  lemma OnlyInItself(q: Queue, b: nat)
    ensures OnlyIn(q, q, b)
  {
  }

  lemma RowOnlyIn(q: Queue, e: nat, row: Entry)
    requires e < |q.entries| && SameKey(row, q.entries[e])
    ensures OnlyIn(q, SetEntry(q, e, row), q.entries[e].batch)
  {
  }

  lemma BatchVerbOnlyIn(q: Queue, b: nat, reason: string, now: Time)
    requires b < |q.batches|
    ensures OnlyIn(q, PauseBatch(q, b, reason), b) && OnlyIn(q, AbortBatch(q, b, reason, now), b)
    ensures OnlyIn(q, ResumeBatch(q, b), b) && OnlyIn(q, SettleBatchIfFinished(q, b, now), b)
  {
  }

  lemma EndOnlyIn(q: Queue, e: nat, end: End, now: Time)
    requires e < |q.entries| && q.entries[e].batch < |q.batches|
    ensures OnlyIn(q, SettleEntryFor(q, e, end, now), q.entries[e].batch)
  {
    var b := q.entries[e].batch;
    var settled := Settle(q, e, OutcomeOf(end), Some(DetailOf(end)), now);
    RowOnlyIn(q, e, settled.entries[e]);
    BatchVerbOnlyIn(settled, b, if Pauses(end) then PauseReason(end) else "a run in this batch was stopped", now);
    hide OnlyIn, PauseBatch, AbortBatch, SettleBatchIfFinished, PauseReason;
    OnlyInBoth(q, settled, SettleEntryFor(q, e, end, now), b);
  }

  lemma NextOnlyIn(q: Queue, step: Step)
    requires Sound(q) && !step.Initiate? && !step.Reclaim?
    ensures OnlyIn(q, Next(q, step), BatchAt(q, step))
  {
    hide RowSound, Fits, BatchSound, SettleEntryFor, PauseBatch, ResumeBatch, AbortBatch, SettleBatchIfFinished, Settle;
    hide SetEntry, OnlyIn, KeysKept;
    if Taken(q, step) {
      match step
      case Cancel(e, now) => CallOffOnlyIn(q, e, "cancelled before it started", now);
      case Abandon(e, detail, now) => CallOffOnlyIn(q, e, detail, now);
      case Resume(b) => BatchVerbOnlyIn(q, b, "", 0);
      case FinishResume(b, now) => BatchVerbOnlyIn(q, b, "", now);
      case Bind(e, run, session, ended, now) => BindOnlyIn(q, e, run, session, ended, now);
      case Refuse(e, message, now) => RefuseOnlyIn(q, e, message, now);
      case SessionEnded(e, end, now) => EndOnlyIn(q, e, end, now);
      case _ => EntryStepOnlyIn(q, step);
    } else {
      OnlyInItself(q, BatchAt(q, step));
    }
  }

  lemma BindOnlyIn(q: Queue, e: nat, run: nat, session: nat, ended: Option<End>, now: Time)
    requires Linked(q) && Taken(q, Bind(e, run, session, ended, now))
    ensures OnlyIn(q, Next(q, Bind(e, run, session, ended, now)), q.entries[e].batch)
  {
    hide OnlyIn, SettleEntryFor;
    var bound := MarkRunning(q, e, run, session);
    RowOnlyIn(q, e, bound.entries[e]);
    if ended.Some? {
      EndOnlyIn(bound, e, ended.value, now);
      OnlyInBoth(q, bound, SettleEntryFor(bound, e, ended.value, now), q.entries[e].batch);
    }
  }

  lemma RefuseOnlyIn(q: Queue, e: nat, message: string, now: Time)
    requires Linked(q) && Taken(q, Refuse(e, message, now))
    ensures OnlyIn(q, Next(q, Refuse(e, message, now)), q.entries[e].batch)
  {
    hide OnlyIn, PauseBatch;
    var settled, reason := Settle(q, e, Failed, Some(message), now), "a run in this batch was refused: " + message;
    RowOnlyIn(q, e, settled.entries[e]);
    BatchVerbOnlyIn(settled, q.entries[e].batch, reason, now);
    OnlyInBoth(q, settled, PauseBatch(settled, q.entries[e].batch, reason), q.entries[e].batch);
  }

  lemma CallOffOnlyIn(q: Queue, e: nat, detail: string, now: Time)
    requires e < |q.entries| && q.entries[e].batch < |q.batches|
    ensures OnlyIn(q, SettleBatchIfFinished(Settle(q, e, Cancelled, Some(detail), now), q.entries[e].batch, now),
        q.entries[e].batch)
  {
    var settled := Settle(q, e, Cancelled, Some(detail), now);
    RowOnlyIn(q, e, settled.entries[e]);
    BatchVerbOnlyIn(settled, q.entries[e].batch, "", now);
    hide OnlyIn, SettleBatchIfFinished;
    OnlyInBoth(q, settled, SettleBatchIfFinished(settled, q.entries[e].batch, now), q.entries[e].batch);
  }

  lemma EntryStepOnlyIn(q: Queue, step: Step)
    requires Sound(q) && Taken(q, step)
    requires step.Confirm? || step.Decline? || step.Reask? || step.Start? || step.ReclaimOne?
    ensures OnlyIn(q, Next(q, step), q.entries[step.entry].batch)
    ensures Next(q, step).batches == q.batches
  {
    hide OnlyIn, Next;
    assert RowSound(q.entries[step.entry]);
    EntryStepMovesOneRow(q, step);
    RowOnlyIn(q, step.entry, Next(q, step).entries[step.entry]);
  }

  // ----- a batch that is over stays over

  /** Aborted or completed, with nothing of it still in flight. */
  ghost predicate Closed(q: Queue, b: nat) {
    && b < |q.batches| && (q.batches[b].state.BatchAborted? || q.batches[b].state.BatchCompleted?)
    && forall i | 0 <= i < |q.entries| && q.entries[i].batch == b :: Settled(q.entries[i].state)
  }

  /** The batch's row and its entries are the same, and it has no others. */
  ghost predicate Untouched(q: Queue, r: Queue, b: nat)
    requires b < |q.batches|
  {
    && |q.batches| <= |r.batches| && |q.entries| <= |r.entries| && r.batches[b] == q.batches[b]
    && (forall i | 0 <= i < |q.entries| && q.entries[i].batch == b :: r.entries[i] == q.entries[i])
    && (forall i | 0 <= i < |r.entries| && r.entries[i].batch == b :: i < |q.entries| && q.entries[i].batch == b)
  }

  lemma CompletedIsClosed(q: Queue, b: nat)
    requires Sound(q) && b < |q.batches| && q.batches[b].state.BatchCompleted?
    ensures Closed(q, b)
  {
  }

  lemma ElsewhereUntouched(q: Queue, r: Queue, b: nat, c: nat)
    requires OnlyIn(q, r, c) && b < |q.batches| && b != c
    ensures Untouched(q, r, b)
  {
  }

  lemma ReclaimLeavesClosed(q: Queue, b: nat)
    requires Sound(q) && Closed(q, b)
    ensures Untouched(q, ReclaimUnstarted(q), b)
  {
  }

  lemma InitiateLeavesOthers(q: Queue, b: nat, key: nat, items: seq<Item>, now: Time)
    requires Linked(q) && b < |q.batches|
    ensures Untouched(q, Next(q, Initiate(key, items, now)), b)
  {
  }

  lemma ClosedTakesNoStep(q: Queue, b: nat, step: Step)
    requires Sound(q) && Closed(q, b) && BatchAt(q, step) == b && !step.Initiate? && !step.Reclaim?
    ensures Next(q, step) == q
  {
    hide Settle, PauseBatch, ResumeBatch, AbortBatch, SettleEntryFor, ReclaimUnstarted, EnqueueAll, DeclineRow,
        KeysKept;
  }

  lemma NextLeavesClosed(q: Queue, b: nat, step: Step)
    requires Sound(q) && Closed(q, b)
    ensures Untouched(q, Next(q, step), b)
  {
    if step.Initiate? {
      InitiateLeavesOthers(q, b, step.key, step.items, step.now);
    } else if step.Reclaim? {
      ReclaimLeavesClosed(q, b);
    } else if BatchAt(q, step) == b {
      ClosedTakesNoStep(q, b, step);
    } else {
      NextOnlyIn(q, step);
      hide Next, OnlyIn, Sound;
      ElsewhereUntouched(q, Next(q, step), b, BatchAt(q, step));
    }
  }

  lemma UntouchedStaysClosed(q: Queue, r: Queue, s: Queue, b: nat)
    requires Closed(q, b) && Untouched(q, r, b)
    ensures Closed(r, b)
    ensures Untouched(r, s, b) ==> Untouched(q, s, b)
  {
  }

  /** A completed batch, or an aborted one whose entries are all settled, is never touched again by any run. */
  lemma {:induction false} ClosedForEver(q: Queue, steps: seq<Step>, b: nat)
    requires Sound(q) && Closed(q, b)
    ensures Untouched(q, Run(q, steps), b) && Closed(Run(q, steps), b)
    decreases |steps|
  {
    if steps != [] {
      NextFollows(q, steps[0]);
      NextLeavesClosed(q, b, steps[0]);
      hide Next, RowSound, Fits, BatchSound, Closed, Untouched;
      var r := Next(q, steps[0]);
      UntouchedStaysClosed(q, r, r, b);
      ClosedForEver(r, steps[1..], b);
      UntouchedStaysClosed(q, r, Run(r, steps[1..]), b);
    }
  }

  // ----- what moves a batch from state to state

  ghost predicate EndsBadly(q: Queue, step: Step) {
    && Taken(q, step)
    && match step
       case Bind(_, _, _, ended, _) => ended.Some? && Pauses(ended.value)
       case SessionEnded(_, end, _) => Pauses(end)
       case Refuse(_, _, _) => true
       case _ => false
  }

  ghost predicate EndsStopped(q: Queue, step: Step) {
    && Taken(q, step)
    && match step
       case Bind(_, _, _, ended, _) => ended == Some(EndStopped)
       case SessionEnded(_, end, _) => end == EndStopped
       case _ => false
  }

  /** What one session end leaves of its own batch's row. */
  lemma EndMovesBatch(q: Queue, e: nat, end: End, now: Time)
    requires Sound(q) && e < |q.entries| && !Settled(q.entries[e].state)
    ensures var before, after := BatchOf(q, e).state, SettleEntryFor(q, e, end, now).batches[q.entries[e].batch].state;
      if Pauses(end) then after.BatchPaused?
      else if end.EndStopped? then after.BatchAborted?
      else after == before || (before.BatchRunning? && after.BatchCompleted?)
  {
  }

  ghost function StateAfter(q: Queue, step: Step, b: nat): BatchState
    requires Linked(q) && b < |q.batches|
  {
    NextLinked(q, step);
    Next(q, step).batches[b].state
  }

  /** A batch pauses, aborts or resumes in no step but these, and completes only from running. */
  lemma BatchMovesIff(q: Queue, step: Step, b: nat)
    requires Sound(q) && b < |q.batches|
    ensures var before, after := q.batches[b].state, StateAfter(q, step, b);
      && (after.BatchPaused? && !before.BatchPaused? <==>
          !before.BatchPaused? && BatchAt(q, step) == b && EndsBadly(q, step))
      && (after.BatchAborted? && !before.BatchAborted? <==>
          !before.BatchAborted? && BatchAt(q, step) == b && EndsStopped(q, step))
      && (after.BatchRunning? && !before.BatchRunning? <==> before.BatchPaused? && step == Resume(b))
      && (after.BatchCompleted? && !before.BatchCompleted? ==> before.BatchRunning?)
      && (before.BatchAborted? && !after.BatchAborted? <==>
          before.BatchAborted? && BatchAt(q, step) == b && EndsBadly(q, step))
  {
    hide Next, KeysKept, RowSound, Fits, BatchSound;
    if step.Initiate? || step.Reclaim? || !Taken(q, step) {
      SparesBatches(q, step, b);
    } else if BatchAt(q, step) != b {
      NextOnlyIn(q, step);
    } else if step.Bind? || step.SessionEnded? || step.Refuse? {
      EndedStepMoves(q, step);
    } else if step.Confirm? || step.Decline? || step.Reask? || step.Start? || step.ReclaimOne? {
      EntryStepOnlyIn(q, step);
    } else {
      GestureMoves(q, step);
    }
  }

  lemma SparesBatches(q: Queue, step: Step, b: nat)
    requires Linked(q) && b < |q.batches| && (step.Initiate? || step.Reclaim? || !Taken(q, step))
    ensures StateAfter(q, step, b) == q.batches[b].state
  {
    hide KeysKept;
  }

  lemma GestureMoves(q: Queue, step: Step)
    requires Linked(q) && Taken(q, step) && (step.Cancel? || step.Abandon? || step.Resume? || step.FinishResume?)
    ensures var before, after := q.batches[BatchAt(q, step)].state, StateAfter(q, step, BatchAt(q, step));
      if step.Resume? then before.BatchPaused? && after.BatchRunning?
      else after == before || (before.BatchRunning? && after.BatchCompleted?)
  {
    hide KeysKept;
  }

  lemma EndedStepMoves(q: Queue, step: Step)
    requires Sound(q) && Taken(q, step) && (step.Bind? || step.SessionEnded? || step.Refuse?)
    ensures var before, after := q.batches[BatchAt(q, step)].state, StateAfter(q, step, BatchAt(q, step));
      if EndsBadly(q, step) then after.BatchPaused?
      else if EndsStopped(q, step) then after.BatchAborted?
      else after == before || (before.BatchRunning? && after.BatchCompleted?)
  {
    hide KeysKept, SettleEntryFor;
    match step
    case Bind(e, run, session, ended, now) =>
      BindFollows(q, e, run, session, None, now);
      if ended.Some? {
        EndMovesBatch(MarkRunning(q, e, run, session), e, ended.value, now);
      }
    case SessionEnded(e, end, now) => EndMovesBatch(q, e, end, now);
    case Refuse(_, _, _) =>
  }

  // ----- an aborted batch with nothing in flight never runs again

  /** Aborted with nothing in flight; entries a restart put back in the queue may still wait to be declined. */
  ghost predicate Dormant(q: Queue, b: nat) {
    && b < |q.batches| && q.batches[b].state.BatchAborted?
    && forall i | 0 <= i < |q.entries| && q.entries[i].batch == b :: !InFlight(q.entries[i].state)
  }

  /** The batch's row is the same, it gained no entry, and none of its entries has been given a run. */
  ghost predicate NothingRan(q: Queue, r: Queue, b: nat)
    requires b < |q.batches|
  {
    && |q.batches| <= |r.batches| && |q.entries| <= |r.entries| && r.batches[b] == q.batches[b]
    && (forall i | 0 <= i < |r.entries| && r.entries[i].batch == b ::
          i < |q.entries| && q.entries[i].batch == b && r.entries[i].runId == q.entries[i].runId)
  }

  lemma UntouchedStaysDormant(q: Queue, r: Queue, b: nat)
    requires Dormant(q, b) && Untouched(q, r, b)
    ensures Dormant(r, b) && NothingRan(q, r, b)
  {
  }

  lemma ReclaimStaysDormant(q: Queue, b: nat)
    requires Dormant(q, b)
    ensures Dormant(ReclaimUnstarted(q), b) && NothingRan(q, ReclaimUnstarted(q), b)
  {
  }

  /** Of the steps on its own entries only cancelling and declining are open to it. */
  lemma OwnStepStaysDormant(q: Queue, step: Step, b: nat)
    requires Sound(q) && Dormant(q, b) && BatchAt(q, step) == b && !step.Initiate? && !step.Reclaim?
    ensures Dormant(Next(q, step), b) && NothingRan(q, Next(q, step), b)
  {
    if Taken(q, step) && (step.Cancel? || step.Decline?) {
      CalledOffStaysDormant(q, step, b);
    } else {
      DormantRefuses(q, step, b);
    }
  }

  lemma DormantRefuses(q: Queue, step: Step, b: nat)
    requires Sound(q) && Dormant(q, b) && BatchAt(q, step) == b && !step.Initiate? && !step.Reclaim?
    requires !(Taken(q, step) && (step.Cancel? || step.Decline?))
    ensures Next(q, step) == q
  {
    hide Settle, PauseBatch, ResumeBatch, AbortBatch, SettleEntryFor, ReclaimUnstarted, EnqueueAll, DeclineRow,
        KeysKept;
    hide Fits, BatchSound;
  }

  lemma CalledOffStaysDormant(q: Queue, step: Step, b: nat)
    requires Sound(q) && Dormant(q, b) && BatchAt(q, step) == b && Taken(q, step) && (step.Cancel? || step.Decline?)
    ensures Dormant(Next(q, step), b) && NothingRan(q, Next(q, step), b)
  {
    hide Fits, BatchSound, RowSound, KeysKept;
    var e := step.entry;
    assert BatchOf(q, e).state.BatchAborted?;
    assert Next(q, step).batches == q.batches;
    assert Next(q, step) == SetEntry(q, e, Next(q, step).entries[e]);
    assert Next(q, step).entries[e].state.Cancelled? && Next(q, step).entries[e].runId == q.entries[e].runId;
    hide Next;
  }

  lemma NextStaysDormant(q: Queue, step: Step, b: nat)
    requires Sound(q) && Dormant(q, b)
    ensures Dormant(Next(q, step), b) && NothingRan(q, Next(q, step), b)
  {
    if step.Initiate? {
      InitiateLeavesOthers(q, b, step.key, step.items, step.now);
      hide Next;
      UntouchedStaysDormant(q, Next(q, step), b);
    } else if step.Reclaim? {
      ReclaimStaysDormant(q, b);
    } else if BatchAt(q, step) == b {
      OwnStepStaysDormant(q, step, b);
    } else {
      NextOnlyIn(q, step);
      hide Next, OnlyIn, Sound;
      ElsewhereUntouched(q, Next(q, step), b, BatchAt(q, step));
      UntouchedStaysDormant(q, Next(q, step), b);
    }
  }

  /** Nothing of such a batch ever starts again, and it stays aborted, whatever the run. */
  lemma {:induction false} DormantForEver(q: Queue, steps: seq<Step>, b: nat)
    requires Sound(q) && Dormant(q, b)
    ensures Dormant(Run(q, steps), b) && NothingRan(q, Run(q, steps), b)
    decreases |steps|
  {
    if steps != [] {
      NextFollows(q, steps[0]);
      NextStaysDormant(q, steps[0], b);
      hide Next, RowSound, Fits, BatchSound, Dormant;
      DormantForEver(Next(q, steps[0]), steps[1..], b);
    }
  }

  // ----- stopped means stopped, for what had not started

  lemma StopCancels(q: Queue, e: nat, i: nat, now: Time)
    requires Linked(q) && e < |q.entries| && i < |q.entries| && q.entries[i].batch == q.entries[e].batch
    requires Cancellable(q.entries[i].state)
    ensures SettleEntryFor(q, e, EndStopped, now).entries[i].state.Cancelled?
  {
  }

  /**
   * A user stop cancels everything in the batch that had not started, and no later run of the queue revives any of it.
   */
  lemma StoppedMeansStopped(q: Queue, step: Step, i: nat, steps: seq<Step>)
    requires Sound(q) && EndsStopped(q, step)
    requires i < |q.entries| && q.entries[i].batch == BatchAt(q, step) && Cancellable(q.entries[i].state)
    ensures var r := Run(q, [step] + steps);
        i < |r.entries| && r.entries[i].state.Cancelled? && r.entries[i].runId.None?
  {
    assert RowSound(q.entries[i]);
    StopCancelsNow(q, step, i);
    NextFollows(q, step);
    EveryRunFollows(Next(q, step), steps);
    assert ([step] + steps)[1..] == steps;
    hide Next, Fits, RowSound, BatchSound;
    assert Evolves(Next(q, step).entries[i], Run(Next(q, step), steps).entries[i]);
  }

  lemma StopCancelsNow(q: Queue, step: Step, i: nat)
    requires Sound(q) && EndsStopped(q, step)
    requires i < |q.entries| && q.entries[i].batch == BatchAt(q, step) && Cancellable(q.entries[i].state)
    ensures i < |Next(q, step).entries| && Next(q, step).entries[i].state.Cancelled?
        && Next(q, step).entries[i].runId.None?
  {
    NextFollows(q, step);
    assert RowSound(q.entries[i]);
    match step
    case Bind(e, run, session, _, now) => StopCancels(MarkRunning(q, e, run, session), e, i, now);
    case SessionEnded(e, _, now) => StopCancels(q, e, i, now);
  }

  // ----- but the batch itself can come back

  lemma RunTwo(q: Queue, first: Step, second: Step)
    requires Linked(q)
    ensures Linked(Next(q, first)) && Run(q, [first, second]) == Next(Next(q, first), second)
  {
    hide Next, Linked;
    NextLinked(q, first);
    var r := Next(q, first);
    NextLinked(r, second);
    assert [first, second][1..] == [second] && [second][1..] == [];
    assert Run(r, [second]) == Run(Next(r, second), []);
  }

  /** How an entry in flight can fail: its start is refused, or its session ends badly. */
  function Failure(q: Queue, e: nat, now: Time): Step {
    if e < |q.entries| && q.entries[e].state.Starting? then Refuse(e, "", now) else SessionEnded(e, EndFailed, now)
  }

  predicate InFlight(state: EntryState) { state.Starting? || state.Running? }

  /** An entry still in flight when its batch is aborted pauses the batch if it fails, and a paused batch resumes. */
  lemma AbortedBatchResumes(q: Queue, e: nat, now: Time)
    requires Sound(q) && e < |q.entries| && InFlight(q.entries[e].state) && BatchOf(q, e).state.BatchAborted?
    ensures var b, r := q.entries[e].batch, Run(q, [Failure(q, e, now), Resume(q.entries[e].batch)]);
      b < |r.batches| && r.batches[b].state.BatchRunning?
  {
    var b := q.entries[e].batch;
    var fail, resume := Failure(q, e, now), Resume(b);
    assert RowSound(q.entries[e]);
    RunTwo(q, fail, resume);
    FailedRunPauses(q, e, now);
    hide RowSound, Fits, BatchSound, SettleEntryFor, PauseBatch, ResumeBatch, KeysKept;
    var r := Next(q, fail);
    assert Next(r, resume) == ResumeBatch(r, b);
    ResumedRuns(r, b);
  }

  lemma ResumedRuns(q: Queue, b: nat)
    requires b < |q.batches|
    ensures ResumeBatch(q, b).batches[b].state.BatchRunning?
  {
  }

  lemma FailedRunPauses(q: Queue, e: nat, now: Time)
    requires Sound(q) && e < |q.entries| && InFlight(q.entries[e].state)
    ensures var r := Next(q, Failure(q, e, now));
      |r.batches| == |q.batches| && BatchOf(q, e) == q.batches[q.entries[e].batch]
          && r.batches[q.entries[e].batch].state.BatchPaused?
  {
    assert RowSound(q.entries[e]);
    hide KeysKept, RowSound, Fits;
  }

  /** Two commands of one batch are running when the user stops the first. */
  function BothRunning(now: Time): seq<Step> {
    [Initiate(0, [Item(0, 1, 0, None), Item(1, 2, 0, None)], now), Start(0, now), Bind(0, 0, 0, None, now),
        Start(1, now), Bind(1, 1, 1, None, now)]
  }

  lemma BothRunningIsReached(now: Time)
    ensures var q := Run(EMPTY, BothRunning(now));
      && |q.batches| == 1 && q.batches[0].state.BatchRunning? && |q.entries| == 2
      && q.entries[0].batch == 0 && q.entries[0].state.Running? && q.entries[0].sessionId.Some?
      && q.entries[0].settledAt.None?
      && q.entries[1].batch == 0 && q.entries[1].state.Running? && q.entries[1].sessionId.Some?
      && q.entries[1].settledAt.None?
  {
    var items, steps := [Item(0, 1, 0, None), Item(1, 2, 0, None)], BothRunning(now);
    var a, b := NewEntry(0, 0, items[0], now), NewEntry(1, 0, items[1], now);
    var batches := [Batch(0, BatchRunning, None, None)];
    var q1 := Queue(batches, [a, b]);
    assert Next(EMPTY, steps[0]) == q1 by { assert !KeyUsed(EMPTY, 0); }
    var q2 := MarkStarting(q1, 0, now);
    var q3 := MarkRunning(q2, 0, 0, 0);
    var q4 := MarkStarting(q3, 1, now);
    var q5 := MarkRunning(q4, 1, 1, 1);
    assert Next(q1, steps[1]) == q2;
    assert Next(q2, steps[2]) == q3;
    assert Next(q3, steps[3]) == q4;
    assert Next(q4, steps[4]) == q5;
    hide Next;
    assert steps[1..][1..] == steps[2..] && steps[2..][1..] == steps[3..] && steps[3..][1..] == steps[4..]
        && steps[4..][1..] == [];
    assert Run(EMPTY, steps) == Run(q1, steps[1..]) == Run(q2, steps[2..]) == Run(q3, steps[3..]) == Run(q4, steps[4..])
        == Run(q5, []);
  }

  /** A batch its user stopped is running again after another of its sessions fails and the batch is resumed. */
  lemma StoppedBatchRunsAgain(q: Queue, e: nat, f: nat, now: Time)
    requires Sound(q) && e < |q.entries| && f < |q.entries| && e != f && q.entries[e].batch == q.entries[f].batch
    requires q.entries[e].state.Running? && q.entries[f].state.Running?
    ensures var stopped, b := Next(q, SessionEnded(e, EndStopped, now)), q.entries[e].batch;
      && Linked(stopped) && b < |stopped.batches| && stopped.batches[b].state.BatchAborted?
      && var resumed := Run(stopped, [SessionEnded(f, EndFailed, now), Resume(b)]);
         b < |resumed.batches| && resumed.batches[b].state.BatchRunning?
  {
    var stop, b := SessionEnded(e, EndStopped, now), q.entries[e].batch;
    NextFollows(q, stop);
    StopSparesRunning(q, e, f, now);
    hide Next, RowSound, Fits;
    AbortedBatchResumes(Next(q, stop), f, now);
  }

  lemma StopSparesRunning(q: Queue, e: nat, f: nat, now: Time)
    requires Sound(q) && e < |q.entries| && f < |q.entries| && e != f && q.entries[e].batch == q.entries[f].batch
    requires q.entries[e].state.Running? && q.entries[f].state.Running?
    ensures var r, b := Next(q, SessionEnded(e, EndStopped, now)), q.entries[e].batch;
      |r.batches| == |q.batches| && |r.entries| == |q.entries| && r.batches[b].state.BatchAborted?
          && r.entries[f] == q.entries[f]
  {
    hide KeysKept;
    assert RowSound(q.entries[e]);
  }

  ghost predicate RunsAgain(q: Queue, steps: seq<Step>, b: nat)
    requires Linked(q)
  {
    var r := Run(q, steps);
    b < |r.batches| && r.batches[b].state.BatchRunning?
  }

  /** An aborted batch can come to run again exactly when one of its entries is starting or running. */
  lemma RunsAgainIff(q: Queue, b: nat)
    requires Sound(q) && b < |q.batches| && q.batches[b].state.BatchAborted?
    ensures (exists steps :: RunsAgain(q, steps, b))
      <==> exists e | 0 <= e < |q.entries| :: q.entries[e].batch == b && InFlight(q.entries[e].state)
  {
    if e :| 0 <= e < |q.entries| && q.entries[e].batch == b && InFlight(q.entries[e].state) {
      AbortedBatchResumes(q, e, 0);
      assert RunsAgain(q, [Failure(q, e, 0), Resume(b)], b);
    } else {
      forall steps
        ensures !RunsAgain(q, steps, b)
      {
        DormantForEver(q, steps, b);
      }
    }
  }
}
