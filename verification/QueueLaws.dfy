/**
 * What each verb and each step of the queue leaves in the rows (packages/db/src/run-queue-store.ts,
 * apps/server/src/runs/queue.ts).
 */
module QueueLaws {
  import opened Wrappers
  import opened RunQueue
  import opened QueueOrder
  import opened Admission
  import opened BatchStanding

  // ----- how a session's end settles its entry

  /** The four outcomes: each from its own ends and from no other, stamped, and with the end's own words. */
  ghost predicate SettledBy(before: Entry, after: Entry, end: End, now: Time) {
    && (after.state.Done? <==> end.EndCompleted? || end.EndByUser?)
    && (after.state.Failed? <==> end.EndFailed? || end.EndOutOfBudget?)
    && (after.state.Interrupted? <==> end.EndInterrupted?)
    && (after.state.Cancelled? <==> end.EndStopped?)
    && after.settledAt == Some(now)
    && (end.EndFailed? ==> after.detail == Some("failed"))
    && (end.EndOutOfBudget? ==> after.detail == Some("out-of-budget"))
    && (end.EndInterrupted? ==> after.detail == Some(end.message))
    && (end.EndStopped? ==> after.detail == Some("stopped by user"))
    && (end.EndCompleted? ==> after.detail == Some("completed"))
    && (end.EndByUser? ==> after.detail == Some("ended-by-user"))
    && after == before.(state := after.state, detail := after.detail, settledAt := after.settledAt)
  }

  lemma EndSettles(q: Queue, e: nat, end: End, now: Time)
    requires e < |q.entries| && q.entries[e].batch < |q.batches|
    ensures var r := SettleEntryFor(q, e, end, now);
      |r.entries| == |q.entries| && SettledBy(q.entries[e], r.entries[e], end, now)
  {
    hide KeysKept, HasOutstanding, PauseReason;
  }

  lemma SessionEndSettles(q: Queue, e: nat, end: End, now: Time)
    requires Linked(q) && e < |q.entries| && q.entries[e].sessionId.Some? && q.entries[e].settledAt.None?
    ensures var r := Next(q, Step.SessionEnded(e, end, now));
      |r.entries| == |q.entries| && SettledBy(q.entries[e], r.entries[e], end, now)
  {
    EndSettles(q, e, end, now);
    hide SettleEntryFor, KeysKept;
  }

  /** A session found over when its entry is bound to it settles the entry in the same way. */
  lemma BindSettles(q: Queue, e: nat, run: nat, session: nat, end: End, now: Time)
    requires Linked(q) && e < |q.entries| && q.entries[e].state.Starting?
    ensures var r := Next(q, Bind(e, run, session, Some(end), now));
      && |r.entries| == |q.entries|
      && SettledBy(q.entries[e].(runId := Some(run), sessionId := Some(session)), r.entries[e], end, now)
  {
    var bound := MarkRunning(q, e, run, session);
    assert bound.entries[e] == q.entries[e].(state := Running, runId := Some(run), sessionId := Some(session));
    BindTables(q, e, run, session, end, now);
    hide Next, SettledBy, KeysKept, MarkRunning, SettleEntryFor;
    EndSettles(bound, e, end, now);
    SettledOver(bound.entries[e], q.entries[e].(runId := Some(run), sessionId := Some(session)),
        SettleEntryFor(bound, e, end, now).entries[e], end, now);
  }

  lemma BindTables(q: Queue, e: nat, run: nat, session: nat, end: End, now: Time)
    requires Linked(q) && e < |q.entries| && q.entries[e].state.Starting?
    ensures var bound := MarkRunning(q, e, run, session);
      && |bound.entries| == |q.entries| && bound.entries[e].batch < |bound.batches|
      && Next(q, Bind(e, run, session, Some(end), now)) == SettleEntryFor(bound, e, end, now)
  {
    hide SettleEntryFor, KeysKept;
  }

  /** What is overwritten by the end need not be known before it. */
  lemma SettledOver(before: Entry, known: Entry, after: Entry, end: End, now: Time)
    requires SettledBy(before, after, end, now)
    requires before == known.(state := before.state, detail := before.detail, settledAt := before.settledAt)
    ensures SettledBy(known, after, end, now)
  {
  }

  // ----- what that means for the rest of the batch

  /** `e` is the one entry of its command in the batch of `f`, which is another command's. */
  ghost predicate SoleSibling(q: Queue, f: nat, e: nat) {
    && f < |q.entries| && e < |q.entries| && q.entries[e].batch == q.entries[f].batch
    && q.entries[e].command != q.entries[f].command
    && forall g | 0 <= g < |q.entries| && q.entries[g].batch == q.entries[f].batch
                  && q.entries[g].command == q.entries[e].command :: g == e
  }

  /** An entry sees the other commands of its own batch, each in a state one of its entries is in, and nothing else. */
  lemma {:induction false} SeesItsBatch(q: Queue, f: nat, n: nat)
    requires f < |q.entries| && n <= |q.entries|
    ensures forall c :: c in SiblingStates(q, f, n) <==>
      c != q.entries[f].command
      && exists g: nat :: g < n && q.entries[g].batch == q.entries[f].batch && q.entries[g].command == c
    ensures forall c | c in SiblingStates(q, f, n) :: exists g: nat ::
      g < n && q.entries[g].batch == q.entries[f].batch && q.entries[g].command == c
      && q.entries[g].state == SiblingStates(q, f, n)[c]
  {
    if n > 0 {
      SeesItsBatch(q, f, n - 1);
      var before := SiblingStates(q, f, n - 1);
      assert SiblingStates(q, f, n).Keys ==
        before.Keys + if q.entries[n - 1].batch == q.entries[f].batch
            && q.entries[n - 1].command != q.entries[f].command
                      then {q.entries[n - 1].command} else {};
      forall c
        ensures c in SiblingStates(q, f, n) <==>
          c != q.entries[f].command
          && exists g: nat :: g < n && q.entries[g].batch == q.entries[f].batch && q.entries[g].command == c
      {
        if c in before {
          var g: nat :| g < n - 1 && q.entries[g].batch == q.entries[f].batch && q.entries[g].command == c;
        }
      }
      hide SiblingStates;
    }
  }

  /** Of several entries of one command the last says how that command stands. */
  lemma {:induction false} LastEntryTells(q: Queue, f: nat, g: nat, n: nat)
    requires f < |q.entries| && g < n <= |q.entries| && q.entries[g].batch == q.entries[f].batch
    requires q.entries[g].command != q.entries[f].command
    requires forall h | g < h < n && q.entries[h].batch == q.entries[f].batch ::
      q.entries[h].command != q.entries[g].command
    ensures q.entries[g].command in SiblingStates(q, f, n)
        && SiblingStates(q, f, n)[q.entries[g].command] == q.entries[g].state
  {
    if g < n - 1 {
      LastEntryTells(q, f, g, n - 1);
    }
  }

  /** Whoever takes input of no command of its batch but this one. */
  ghost predicate NeedsOnly(states: map<nat, EntryState>, inputs: seq<Consumed>, producer: nat) {
    forall i | i in inputs && i.producer in states :: i.producer == producer
  }

  /**
   * An entry whose one producer in its batch has just ended is ready if that one completed, whether or not its output
   * is there yet; if it ended in any other way, exactly if every input of its is bound, and otherwise it is abandoned.
   */
  lemma EndDecidesStanding(q: Queue, e: nat, end: End, now: Time, f: nat, inputs: seq<Consumed>)
    requires Linked(q) && SoleSibling(q, f, e) && q.entries[e].sessionId.Some? && q.entries[e].settledAt.None?
    requires var r := Next(q, Step.SessionEnded(e, end, now));
      |r.entries| == |q.entries| && NeedsOnly(SiblingStates(r, f, |r.entries|), inputs, q.entries[e].command)
    requires exists i :: i in inputs && i.producer == q.entries[e].command
    ensures var r := Next(q, Step.SessionEnded(e, end, now));
      var standing := StandingOf(SiblingStates(r, f, |r.entries|), inputs);
      && (standing.Ready? <==>
            end.EndCompleted? || end.EndByUser?
            || forall i | i in inputs && i.producer == q.entries[e].command :: i.bound)
      && (standing.AbandonedBy? <==> !standing.Ready?)
  {
    var r := Next(q, Step.SessionEnded(e, end, now));
    SessionEndSettles(q, e, end, now);
    NextLinked(q, Step.SessionEnded(e, end, now));
    assert forall i | 0 <= i < |q.entries| :: SameKey(q.entries[i], r.entries[i]);
    hide Next;
    var states := SiblingStates(r, f, |r.entries|);
    LastEntryTells(r, f, e, |r.entries|);
    StandingIff(states, inputs);
    hide SiblingStates, StandingOf;
    assert states[q.entries[e].command] == r.entries[e].state;
  }

  /** An input that is there already abandons nobody, however its producer ended. */
  lemma BoundNeverAbandons(states: map<nat, EntryState>, inputs: seq<Consumed>)
    requires forall i | i in inputs :: i.bound
    ensures !StandingOf(states, inputs).AbandonedBy?
  {
    StandingIff(states, inputs);
    hide StandingOf;
  }

  /** Whoever waits is told of exactly the producers that are queued, starting, running, re-asking or paused. */
  lemma WaitsForTheUnsettled(states: map<nat, EntryState>, inputs: seq<Consumed>)
    ensures StandingOf(states, inputs).WaitingOn? ==> forall p: nat ::
      p in StandingOf(states, inputs).producers <==>
        && p in states && (exists i :: i in inputs && i.producer == p)
        && (states[p].Queued? || states[p].Starting? || states[p].Running? || states[p].NeedsReask?
            || states[p].Paused?)
    ensures StandingOf(states, inputs).AbandonedBy? ==> forall p: nat ::
      p in StandingOf(states, inputs).producers <==>
        && p in states && (exists i :: i in inputs && i.producer == p && !i.bound)
        && (states[p].Failed? || states[p].Interrupted? || states[p].Cancelled?)
  {
    var dead, pending := Dead(states, inputs), Pending(states, inputs);
    forall p: nat
      ensures p in pending <==>
        && p in states && (exists i :: i in inputs && i.producer == p)
        && (states[p].Queued? || states[p].Starting? || states[p].Running? || states[p].NeedsReask?
            || states[p].Paused?)
    {
      if p in pending {
        assert exists i :: i in inputs && IsPending(states, i) && i.producer == p;
      }
    }
    forall p: nat
      ensures p in dead <==>
        && p in states && (exists i :: i in inputs && i.producer == p && !i.bound)
        && (states[p].Failed? || states[p].Interrupted? || states[p].Cancelled?)
    {
      if p in dead {
        assert exists i :: i in inputs && IsDead(states, i) && i.producer == p;
      }
    }
  }

  // ----- the batch verbs, row by row

  /** Pausing parks exactly what is queued; nothing else of the batch, and nothing of another, is touched. */
  lemma PauseLaw(q: Queue, b: nat, reason: string)
    requires b < |q.batches|
    ensures var r := PauseBatch(q, b, reason);
      && |r.batches| == |q.batches| && |r.entries| == |q.entries|
      && r.batches == q.batches[b := r.batches[b]] && r.batches[b].state.BatchPaused?
      && r.batches[b].pauseReason == Some(reason) && r.batches[b].settledAt == q.batches[b].settledAt
      && forall i | 0 <= i < |q.entries| ::
           if q.entries[i].batch == b && q.entries[i].state.Queued?
           then r.entries[i].state.Paused? && r.entries[i].detail == Some(reason)
                && r.entries[i] == q.entries[i].(state := r.entries[i].state, detail := r.entries[i].detail)
           else r.entries[i] == q.entries[i]
  {
    hide KeysKept;
  }

  /** Resuming queues exactly what is paused. */
  lemma ResumeLaw(q: Queue, b: nat)
    requires b < |q.batches|
    ensures var r := ResumeBatch(q, b);
      && |r.batches| == |q.batches| && |r.entries| == |q.entries|
      && r.batches == q.batches[b := r.batches[b]] && r.batches[b].state.BatchRunning? && r.batches[b].pauseReason.None?
      && forall i | 0 <= i < |q.entries| ::
           if q.entries[i].batch == b && q.entries[i].state.Paused?
           then r.entries[i].state.Queued? && r.entries[i].detail.None?
                && r.entries[i] == q.entries[i].(state := r.entries[i].state, detail := r.entries[i].detail)
           else r.entries[i] == q.entries[i]
  {
    hide KeysKept;
  }

  /** Aborting cancels exactly what has not started: queued, re-asking or paused. */
  lemma AbortLaw(q: Queue, b: nat, reason: string, now: Time)
    requires b < |q.batches|
    ensures var r := AbortBatch(q, b, reason, now);
      && |r.batches| == |q.batches| && |r.entries| == |q.entries|
      && r.batches == q.batches[b := r.batches[b]] && r.batches[b].state.BatchAborted?
      && r.batches[b].settledAt == Some(now)
      && forall i | 0 <= i < |q.entries| ::
           if q.entries[i].batch == b
              && (q.entries[i].state.Queued? || q.entries[i].state.NeedsReask? || q.entries[i].state.Paused?)
           then r.entries[i].state.Cancelled? && r.entries[i].detail == Some(reason)
               && r.entries[i].settledAt == Some(now)
           else r.entries[i] == q.entries[i]
  {
    hide KeysKept;
  }

  /** A restart queues exactly what was starting, as if it had never been. */
  lemma ReclaimLaw(q: Queue)
    ensures var r := ReclaimUnstarted(q);
      && r.batches == q.batches && |r.entries| == |q.entries|
      && forall i | 0 <= i < |q.entries| ::
           if q.entries[i].state.Starting?
           then r.entries[i].state.Queued? && r.entries[i].startedAt.None?
                && r.entries[i] == q.entries[i].(state := Queued, startedAt := None, detail := r.entries[i].detail)
           else r.entries[i] == q.entries[i]
  {
    hide KeysKept;
  }

  /** A running batch completes exactly when every entry of it is over or paused, and then it is stamped. */
  lemma FinishLaw(q: Queue, b: nat, now: Time)
    requires b < |q.batches|
    ensures SettleBatchIfFinished(q, b, now) ==
      if q.batches[b].state.BatchRunning? && forall i | 0 <= i < |q.entries| && q.entries[i].batch == b ::
           q.entries[i].state.Done? || q.entries[i].state.Failed? || q.entries[i].state.Interrupted?
           || q.entries[i].state.Cancelled? || q.entries[i].state.Paused?
      then q.(batches := q.batches[b := q.batches[b].(state := BatchCompleted, settledAt := Some(now))])
      else q
  {
    hide KeysKept;
    if HasOutstanding(q, b) {
      var i :| 0 <= i < |q.entries| && q.entries[i].batch == b && Outstanding(q.entries[i].state);
    } else {
      forall i | 0 <= i < |q.entries| && q.entries[i].batch == b
        ensures !Outstanding(q.entries[i].state)
      {
      }
    }
  }

  // ----- the entry verbs

  /** Each verb writes its one row: what it is for, and what it leaves. */
  lemma RowLaw(q: Queue, id: nat, run: nat, session: nat, contract: nat, state: EntryState, text: string, now: Time)
    requires id < |q.entries|
    ensures forall r | r in {MarkStarting(q, id, now), MarkRunning(q, id, run, session), MarkNeedsReask(q, id, text),
        Park(q, id, text), Reconfirm(q, id, contract, state, Some(text)), Settle(q, id, state, Some(text), now)} ::
      && r.batches == q.batches && |r.entries| == |q.entries|
      && (forall i | 0 <= i < |q.entries| && i != id :: r.entries[i] == q.entries[i])
      && SameKey(q.entries[id], r.entries[id])
    ensures var row := MarkStarting(q, id, now).entries[id];
      row.state.Starting? && row.startedAt == Some(now) && row.detail.None? && row.contract == q.entries[id].contract
    ensures var row := MarkRunning(q, id, run, session).entries[id];
      row.state.Running? && row.runId == Some(run) && row.sessionId == Some(session)
      && row.startedAt == q.entries[id].startedAt && row.contract == q.entries[id].contract
    ensures var row := MarkNeedsReask(q, id, text).entries[id];
      row.state.NeedsReask? && row.detail == Some(text) && row.contract == q.entries[id].contract
          && row.settledAt == q.entries[id].settledAt
    ensures var row := Park(q, id, text).entries[id];
      row.state.Paused? && row.detail == Some(text) && row.contract == q.entries[id].contract
          && row.settledAt == q.entries[id].settledAt
    ensures var row := Reconfirm(q, id, contract, state, Some(text)).entries[id];
      row.state == state && row.contract == contract && row.detail == Some(text)
          && row.settledAt == q.entries[id].settledAt
    ensures var row := Settle(q, id, state, Some(text), now).entries[id];
      row.state == state && row.detail == Some(text) && row.settledAt == Some(now)
          && row.contract == q.entries[id].contract
  {
    hide KeysKept;
  }

  // ----- gestures

  /** A new batch runs, and holds one queued entry for each item, in the item's own words, and nothing else is new. */
  lemma InitiateLaw(q: Queue, key: nat, items: seq<Item>, now: Time)
    requires Linked(q)
    ensures var r := Next(q, Initiate(key, items, now));
      if items == [] || exists b | 0 <= b < |q.batches| :: q.batches[b].key == key then r == q
      else
        && r.batches == q.batches + [Batch(key, BatchRunning, None, None)]
        && |r.entries| == |q.entries| + |items| && r.entries[..|q.entries|] == q.entries
        && forall k | 0 <= k < |items| ::
             var row := r.entries[|q.entries| + k];
             && row.id == |q.entries| + k && row.batch == |q.batches| && row.state.Queued?
             && row.command == items[k].command && row.position == items[k].position
             && row.contract == items[k].contract
             && row.detail == items[k].detail && row.enqueuedAt == now
             && row.runId.None? && row.sessionId.None? && row.startedAt.None? && row.settledAt.None?
  {
    if Taken(q, Initiate(key, items, now)) {
      NewTables(q, key, items, now);
      hide Next, EnqueueAll, KeyUsed;
      var entries := EnqueueAll(q.entries, |q.batches|, items, now);
      assert entries[..|q.entries|] == q.entries;
      assert forall k | 0 <= k < |items| ::
          entries[|q.entries| + k] == NewEntry(|q.entries| + k, |q.batches|, items[k], now);
    } else {
      NotTakenStays(q, Initiate(key, items, now));
      hide Next;
    }
  }

  lemma NewTables(q: Queue, key: nat, items: seq<Item>, now: Time)
    requires Linked(q) && Taken(q, Initiate(key, items, now))
    ensures items != [] && forall b | 0 <= b < |q.batches| :: q.batches[b].key != key
    ensures Next(q, Initiate(key, items, now))
      == Queue(q.batches + [Batch(key, BatchRunning, None, None)], EnqueueAll(q.entries, |q.batches|, items, now))
  {
    hide EnqueueAll;
  }

  /** A cancel takes an entry that has not started, and no other. */
  lemma CancelLaw(q: Queue, e: nat, now: Time)
    requires Linked(q) && e < |q.entries|
    ensures var r, was := Next(q, Cancel(e, now)), q.entries[e];
      && |r.entries| == |q.entries| && (forall i | 0 <= i < |q.entries| && i != e :: r.entries[i] == q.entries[i])
      && if was.state.Queued? || was.state.NeedsReask? || was.state.Paused?
         then r.entries[e].state.Cancelled? && r.entries[e].settledAt == Some(now)
              && r.entries[e] == was.(state := Cancelled, detail := r.entries[e].detail, settledAt := Some(now))
         else r == q
  {
    hide KeysKept, HasOutstanding;
  }

  /**
   * A confirmation records the fresh contract: queued again in a running batch, kept back in a paused one, refused
   * else.
   */
  lemma ConfirmLaw(q: Queue, e: nat, contract: nat)
    requires Linked(q) && e < |q.entries|
    ensures var r, was, batch := Next(q, Confirm(e, contract)), q.entries[e], q.batches[q.entries[e].batch].state;
      && r.batches == q.batches && |r.entries| == |q.entries|
      && (forall i | 0 <= i < |q.entries| && i != e :: r.entries[i] == q.entries[i])
      && if was.state.NeedsReask? && (batch.BatchRunning? || batch.BatchPaused?)
         then r.entries[e].contract == contract
              && (r.entries[e].state.Queued? <==> batch.BatchRunning?)
              && (r.entries[e].state.Paused? <==> batch.BatchPaused?)
              && r.entries[e] == was.(state := r.entries[e].state, contract := contract, detail := r.entries[e].detail)
         else r == q
  {
    hide KeysKept;
  }

  // ----- admission

  /** What one turn makes of a waiting entry, by what it finds out and what its batch is doing. */
  lemma AdmitLaw(q: Queue, e: nat, answer: Answer, now: Time)
    requires Linked(q) && Waits(q, e)
    ensures var r, batch := Admit(q, e, answer, now), q.batches[q.entries[e].batch].state;
      && |r.entries| == |q.entries| && |r.batches| == |q.batches|
      && (batch.BatchPaused? ==> r.entries[e].state.Paused? && r.entries[e].settledAt == q.entries[e].settledAt)
      && (batch.BatchAborted? || batch.BatchCompleted? ==>
            r.entries[e].state.Cancelled? && r.entries[e].settledAt == Some(now))
      && (batch.BatchRunning? ==>
            match answer
            case NotYet => r == q
            case Abandoned(detail) =>
              r.entries[e].state.Cancelled? && r.entries[e].detail == Some(detail)
                  && r.entries[e].settledAt == Some(now)
            case Drifted(detail) =>
              && r.batches == q.batches
              && r.entries == q.entries[e := q.entries[e].(state := NeedsReask, detail := Some(detail))]
            case Refused(message) =>
              && r.entries[e].state.Failed? && r.entries[e].detail == Some(message)
              && r.entries[e].settledAt == Some(now)
              && r.entries[e].startedAt == Some(now) && r.batches[q.entries[e].batch].state.BatchPaused?
            case Launched(run, session, ended) =>
              && r.entries[e].runId == Some(run) && r.entries[e].sessionId == Some(session)
              && r.entries[e].startedAt == Some(now)
              && match ended
                 case None => r.entries[e].state.Running?
                 case Some(end) =>
                   SettledBy(q.entries[e].(startedAt := Some(now), runId := Some(run), sessionId := Some(session)),
                       r.entries[e], end, now))
  {
    hide KeysKept, SettleEntryFor, SettledBy;
    if BatchOf(q, e).state.BatchRunning? && answer.Launched? && answer.ended.Some? {
      LaunchedAndOver(q, e, answer, now);
      hide Admit;
    }
  }

  lemma LaunchedAndOver(q: Queue, e: nat, answer: Answer, now: Time)
    requires Linked(q) && Waits(q, e) && BatchOf(q, e).state.BatchRunning? && answer.Launched? && answer.ended.Some?
    ensures var r := Admit(q, e, answer, now);
      && |r.entries| == |q.entries| && |r.batches| == |q.batches|
      && r.entries[e].runId == Some(answer.run) && r.entries[e].sessionId == Some(answer.session)
      && r.entries[e].startedAt == Some(now)
      && SettledBy(
          q.entries[e].(startedAt := Some(now), runId := Some(answer.run), sessionId := Some(answer.session)),
          r.entries[e], answer.ended.value, now)
  {
    hide KeysKept, SettleEntryFor, SettledBy;
    var started := Next(q, Start(e, now));
    assert started == MarkStarting(q, e, now);
    assert started.entries[e] == q.entries[e].(state := Starting, startedAt := Some(now), detail := None);
    assert Linked(started);
    BindSettles(started, e, answer.run, answer.session, answer.ended.value, now);
    assert Admit(q, e, answer, now) == Next(started, Bind(e, answer.run, answer.session, answer.ended, now));
    hide Next, Admit, MarkStarting;
    var known := q.entries[e].(startedAt := Some(now), runId := Some(answer.run), sessionId := Some(answer.session));
    var r := Next(started, Bind(e, answer.run, answer.session, answer.ended, now));
    SettledOver(started.entries[e].(runId := Some(answer.run), sessionId := Some(answer.session)), known, r.entries[e],
        answer.ended.value, now);
    SettledKeeps(known, r.entries[e], answer.ended.value, now);
  }

  lemma SettledKeeps(known: Entry, after: Entry, end: End, now: Time)
    requires SettledBy(known, after, end, now)
    ensures after.runId == known.runId && after.sessionId == known.sessionId && after.startedAt == known.startedAt
  {
  }
}
