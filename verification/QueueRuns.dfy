/**
 * What every run of the queue keeps: pauses and stamps agree with states, what is over stays over, and the order never
 * changes.
 */
module QueueRuns {
  import opened Wrappers
  import opened RunQueue

  ghost predicate RowSound(e: Entry) {
    && (e.settledAt.Some? <==> Settled(e.state))
    && (e.state.Running? ==> e.runId.Some? && e.sessionId.Some?)
    && (e.state.Starting? || e.state.Queued? || e.state.NeedsReask? || e.state.Paused? ==>
        e.runId.None? && e.sessionId.None?)
  }

  /** How an entry's state fits what its batch is doing. */
  ghost predicate Fits(batch: Batch, state: EntryState) {
    match batch.state
    case BatchRunning => !state.Paused?
    case BatchPaused => true
    case BatchAborted => !state.Paused? && !state.NeedsReask?
    case BatchCompleted => Settled(state)
  }

  ghost predicate BatchSound(b: Batch) {
    b.state.BatchCompleted? || b.state.BatchAborted? ==> b.settledAt.Some?
  }

  ghost predicate Sound(q: Queue) {
    && Linked(q)
    && (forall i | 0 <= i < |q.entries| ::
        RowSound(q.entries[i]) && Fits(q.batches[q.entries[i].batch], q.entries[i].state))
    && (forall b | 0 <= b < |q.batches| :: BatchSound(q.batches[b]))
    && (forall b, c | 0 <= b < c < |q.batches| :: q.batches[b].key != q.batches[c].key)
  }

  /** A row keeps its place for ever; once over it never changes, and once it names a session it keeps that one. */
  ghost predicate Evolves(e: Entry, f: Entry) {
    && SameKey(e, f)
    && (Settled(e.state) ==> f == e)
    && (e.runId.Some? ==> f.runId == e.runId && f.sessionId == e.sessionId && (f.state.Running? || Settled(f.state)))
  }

  ghost predicate Follows(q: Queue, r: Queue) {
    && Sound(r)
    && |q.batches| <= |r.batches| && |q.entries| <= |r.entries|
    && (forall i | 0 <= i < |q.entries| :: Evolves(q.entries[i], r.entries[i]))
  }

  lemma FollowsOn(q: Queue, r: Queue, s: Queue)
    requires Follows(q, r) && Follows(r, s)
    ensures Follows(q, s)
  {
    forall i | 0 <= i < |q.entries|
      ensures Evolves(q.entries[i], s.entries[i])
    {
      assert Evolves(q.entries[i], r.entries[i]) && Evolves(r.entries[i], s.entries[i]);
    }
  }

  lemma FollowsItself(q: Queue)
    requires Sound(q)
    ensures Follows(q, q)
  {
    forall i | 0 <= i < |q.entries|
      ensures Evolves(q.entries[i], q.entries[i])
    {
      assert RowSound(q.entries[i]);
    }
  }

  // ----- the verbs

  lemma RowFollows(q: Queue, id: nat, row: Entry)
    requires Sound(q) && id < |q.entries| && Evolves(q.entries[id], row)
    requires RowSound(row) && Fits(q.batches[row.batch], row.state)
    ensures Follows(q, SetEntry(q, id, row))
  {
  }

  lemma SettleFollows(q: Queue, id: nat, state: EntryState, detail: Option<string>, now: Time)
    requires Sound(q) && id < |q.entries| && Settled(state) && !Settled(q.entries[id].state)
    ensures Follows(q, Settle(q, id, state, detail, now))
  {
    RowFollows(q, id, q.entries[id].(state := state, detail := detail, settledAt := Some(now)));
  }

  lemma PauseFollows(q: Queue, b: nat, reason: string)
    requires Sound(q) && b < |q.batches|
    ensures Follows(q, PauseBatch(q, b, reason))
  {
  }

  lemma ResumeFollows(q: Queue, b: nat)
    requires Sound(q) && b < |q.batches|
    ensures Follows(q, ResumeBatch(q, b))
  {
  }

  lemma AbortFollows(q: Queue, b: nat, reason: string, now: Time)
    requires Sound(q) && b < |q.batches|
    ensures Follows(q, AbortBatch(q, b, reason, now))
  {
  }

  /** A batch completes only when everything in it is over, although its test does not look for paused entries. */
  lemma FinishFollows(q: Queue, b: nat, now: Time)
    requires Sound(q) && b < |q.batches|
    ensures Follows(q, SettleBatchIfFinished(q, b, now))
  {
    if q.batches[b].state.BatchRunning? && !HasOutstanding(q, b) {
      forall i | 0 <= i < |q.entries| && q.entries[i].batch == b
        ensures Settled(q.entries[i].state)
      {
        assert !q.entries[i].state.Paused? && !Outstanding(q.entries[i].state);
      }
    }
  }

  lemma ReclaimKeepsKey()
    ensures forall e: Entry :: SameKey(e, ReclaimRow(e))
  {
  }

  lemma ReclaimFollows(q: Queue)
    requires Sound(q)
    ensures Follows(q, ReclaimUnstarted(q))
  {
    hide SameKey;
    ReclaimKeepsKey();
  }

  lemma InitiateFollows(q: Queue, key: nat, items: seq<Item>, now: Time)
    requires Sound(q) && Taken(q, Initiate(key, items, now))
    ensures Follows(q, Next(q, Initiate(key, items, now)))
  {
    assert forall b | 0 <= b < |q.batches| :: q.batches[b].key != key;
  }

  lemma EndFollows(q: Queue, e: nat, end: End, now: Time)
    requires Sound(q) && e < |q.entries| && !Settled(q.entries[e].state)
    ensures Follows(q, SettleEntryFor(q, e, end, now))
  {
    var b := q.entries[e].batch;
    var settled := Settle(q, e, OutcomeOf(end), Some(DetailOf(end)), now);
    SettleFollows(q, e, OutcomeOf(end), Some(DetailOf(end)), now);
    hide PauseBatch, AbortBatch, SettleBatchIfFinished, Settle, Evolves, OutcomeOf, DetailOf;
    if Pauses(end) {
      PauseFollows(settled, b, PauseReason(end));
    } else if end.EndStopped? {
      AbortFollows(settled, b, "a run in this batch was stopped", now);
    } else {
      FinishFollows(settled, b, now);
    }
    FollowsOn(q, settled, SettleEntryFor(q, e, end, now));
  }

  lemma CallOffFollows(q: Queue, e: nat, detail: string, now: Time)
    requires Sound(q) && e < |q.entries| && !Settled(q.entries[e].state)
    ensures Follows(q, SettleBatchIfFinished(Settle(q, e, Cancelled, Some(detail), now), q.entries[e].batch, now))
  {
    var settled := Settle(q, e, Cancelled, Some(detail), now);
    SettleFollows(q, e, Cancelled, Some(detail), now);
    hide Settle, Evolves;
    FinishFollows(settled, q.entries[e].batch, now);
    FollowsOn(q, settled, SettleBatchIfFinished(settled, q.entries[e].batch, now));
  }

  // ----- the steps

  /** One row moves inside its batch: an entry not yet over, and not in a batch that is over. */
  lemma EntryStepFollows(q: Queue, step: Step)
    requires Sound(q) && Taken(q, step)
    requires step.Confirm? || step.Decline? || step.Reask? || step.Start? || step.ReclaimOne?
    ensures Follows(q, Next(q, step))
  {
    var e := step.entry;
    assert RowSound(q.entries[e]) && Fits(q.batches[q.entries[e].batch], q.entries[e].state);
    hide Sound;
    EntryStepMovesOneRow(q, step);
    RowFollows(q, e, Next(q, step).entries[e]);
  }

  lemma EntryStepMovesOneRow(q: Queue, step: Step)
    requires Linked(q) && Taken(q, step)
    requires step.Confirm? || step.Decline? || step.Reask? || step.Start? || step.ReclaimOne?
    requires RowSound(q.entries[step.entry])
        && Fits(q.batches[q.entries[step.entry].batch], q.entries[step.entry].state)
    ensures Evolves(q.entries[step.entry], Next(q, step).entries[step.entry])
    ensures Next(q, step) == SetEntry(q, step.entry, Next(q, step).entries[step.entry])
    ensures RowSound(Next(q, step).entries[step.entry])
    ensures Fits(q.batches[q.entries[step.entry].batch], Next(q, step).entries[step.entry].state)
  {
    hide KeysKept, EnqueueAll, PauseBatch, ResumeBatch, AbortBatch, SettleBatchIfFinished, SettleEntryFor,
        ReclaimUnstarted;
    var q' := Next(q, step);
    match step
    case Confirm(e, contract) =>
      assert !BatchOf(q, e).state.BatchPaused? ==> q' == Reconfirm(q, e, contract, Queued, None);
    case Decline(e, now) => assert q' == DeclineRow(q, e, now);
    case Reask(e, detail) => assert q' == MarkNeedsReask(q, e, detail);
    case Start(e, now) => assert q' == MarkStarting(q, e, now);
    case ReclaimOne(e) => assert q' == SetEntry(q, e, Requeued(q.entries[e]));
  }

  lemma BindFollows(q: Queue, e: nat, run: nat, session: nat, ended: Option<End>, now: Time)
    requires Sound(q) && Taken(q, Bind(e, run, session, ended, now))
    ensures Follows(q, Next(q, Bind(e, run, session, ended, now)))
  {
    RowFollows(q, e, q.entries[e].(state := Running, runId := Some(run), sessionId := Some(session)));
    var bound := MarkRunning(q, e, run, session);
    hide Sound, SettleEntryFor, Evolves;
    if ended.Some? {
      EndFollows(bound, e, ended.value, now);
      FollowsOn(q, bound, SettleEntryFor(bound, e, ended.value, now));
    }
  }

  lemma RefuseFollows(q: Queue, e: nat, message: string, now: Time)
    requires Sound(q) && Taken(q, Refuse(e, message, now))
    ensures Follows(q, Next(q, Refuse(e, message, now)))
  {
    var settled, reason := Settle(q, e, Failed, Some(message), now), "a run in this batch was refused: " + message;
    SettleFollows(q, e, Failed, Some(message), now);
    hide Settle, PauseBatch, Evolves;
    PauseFollows(settled, q.entries[e].batch, reason);
    FollowsOn(q, settled, PauseBatch(settled, q.entries[e].batch, reason));
  }

  lemma NextFollows(q: Queue, step: Step)
    requires Sound(q)
    ensures Follows(q, Next(q, step))
  {
    hide Settle, PauseBatch, ResumeBatch, AbortBatch, SettleBatchIfFinished, SettleEntryFor, ReclaimUnstarted, Fits;
    if Taken(q, step) {
      match step
      case Initiate(key, items, now) => InitiateFollows(q, key, items, now);
      case Cancel(e, now) => CallOffFollows(q, e, "cancelled before it started", now);
      case Abandon(e, detail, now) => CallOffFollows(q, e, detail, now);
      case Resume(b) => ResumeFollows(q, b);
      case FinishResume(b, now) => FinishFollows(q, b, now);
      case Bind(e, run, session, ended, now) => BindFollows(q, e, run, session, ended, now);
      case Refuse(e, message, now) => RefuseFollows(q, e, message, now);
      case SessionEnded(e, end, now) => EndFollows(q, e, end, now);
      case Reclaim => ReclaimFollows(q);
      case _ => EntryStepFollows(q, step);
    }
  }

  /**
   * Over any run: pauses and stamps stay in step with states, what is over stays as it is, and every started run keeps
   * its session.
   */
  lemma {:induction false} EveryRunFollows(q: Queue, steps: seq<Step>)
    requires Sound(q)
    ensures Follows(q, Run(q, steps))
    decreases |steps|
  {
    hide Next, RowSound, Fits, BatchSound, SameKey;
    if steps != [] {
      NextFollows(q, steps[0]);
      EveryRunFollows(Next(q, steps[0]), steps[1..]);
      FollowsOn(q, Next(q, steps[0]), Run(Next(q, steps[0]), steps[1..]));
    } else {
      FollowsItself(q);
    }
  }
}
