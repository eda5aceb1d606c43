/**
 * The service that owns the guards: each gesture one step of the queue, and the drain that admits what is waiting
 * (apps/server/src/runs/queue.ts).
 */
module QueueService {
  import opened Wrappers
  import opened RunQueue
  import opened QueueRuns
  import opened QueueOrder
  import opened QueueStore
  import opened Admission
  import opened BatchStanding
  import opened Arrivals

  datatype Declined = EmptyScope | AlreadyStarted | NotReasking | BatchNotRunning | NotPaused | NotFound

  class RunQueueService {
    const store: RunQueueStore
    var stopped: bool
    var draining: bool
    var drainAgain: bool
    var limit: nat

    constructor (store: RunQueueStore, limit: nat)
      ensures this.store == store && this.limit == limit && !stopped && !draining && !drainAgain
    {
      this.store, this.limit := store, limit;
      stopped, draining, drainAgain := false, false, false;
    }

    /**
     * One gesture over a scope: the same key again is the same batch; a new one enqueues every command of the scope.
     */
    method Initiate(key: nat, items: seq<Item>, now: Time) returns (r: Result<nat, Declined>)
      requires store.Valid()
      modifies store
      ensures store.Valid() && store.Rows() == Next(old(store.Rows()), Step.Initiate(key, items, now))
      ensures r.Ok? ==> r.value < |store.batches| && store.batches[r.value].key == key
      ensures r.Err? <==> !old(KeyUsed(store.Rows(), key)) && items == []
    {
      var existing := store.BatchByKey(key);
      if existing.Some? {
        return Ok(existing.value);
      }
      if items == [] {
        return Err(EmptyScope);
      }
      var batch := store.CreateBatch(key);
      ghost var was := store.entries;
      for i := 0 to |items|
        invariant store.Valid() && store.batches == old(store.batches) + [Batch(key, BatchRunning, None, None)]
        invariant store.entries == EnqueueAll(was, batch, items[..i], now)
      {
        store.Enqueue(batch, items[i], now);
        assert items[..i + 1] == items[..i] + [items[i]];
      }
      assert items[..|items|] == items;
      return Ok(batch);
    }

    method Cancel(e: nat, now: Time) returns (r: Result<Entry, Declined>)
      requires store.Valid()
      modifies store
      ensures store.Valid() && store.Rows() == Next(old(store.Rows()), Step.Cancel(e, now))
      ensures r.Ok? <==> old(Taken(store.Rows(), Step.Cancel(e, now)))
      ensures r.Ok? ==> e < |store.entries| && r.value == store.entries[e] && r.value.state.Cancelled?
    {
      if e >= |store.entries| {
        return Err(NotFound);
      }
      if !Cancellable(store.entries[e].state) {
        return Err(AlreadyStarted);
      }
      var cancelled := store.Settle(e, Cancelled, Some("cancelled before it started"), now);
      var _ := store.SettleBatchIfFinished(cancelled.value.batch, now);
      return Ok(store.entries[e]);
    }

    /**
     * The re-ask answered: queued again in a running batch, kept for the resume in a paused one, refused in a batch
     * that is over.
     */
    method Confirm(e: nat, contract: nat) returns (r: Result<Entry, Declined>)
      requires store.Valid()
      modifies store
      ensures store.Valid() && store.Rows() == Next(old(store.Rows()), Step.Confirm(e, contract))
      ensures r.Ok? <==> old(Taken(store.Rows(), Step.Confirm(e, contract)))
      ensures r.Ok? ==> e < |store.entries| && r.value == store.entries[e] && r.value.contract == contract
    {
      if e >= |store.entries| {
        return Err(NotFound);
      }
      if !store.entries[e].state.NeedsReask? {
        return Err(NotReasking);
      }
      var batch := store.batches[store.entries[e].batch];
      if batch.state.BatchAborted? || batch.state.BatchCompleted? {
        return Err(BatchNotRunning);
      }
      var _ := store.Reconfirm(e, contract, if batch.state.BatchPaused? then Paused else Queued,
        if batch.state.BatchPaused? then Some("confirmed; it runs when the batch this belongs to is resumed")
            else None);
      return Ok(store.entries[e]);
    }

    method Resume(b: nat) returns (r: Result<Batch, Declined>)
      requires store.Valid()
      modifies store
      ensures store.Valid() && store.Rows() == Next(old(store.Rows()), Step.Resume(b))
      ensures r.Ok? <==> old(Taken(store.Rows(), Step.Resume(b)))
      ensures r.Ok? ==> b < |store.batches| && r.value == store.batches[b] && r.value.state.BatchRunning?
    {
      if b >= |store.batches| {
        return Err(NotFound);
      }
      if !store.batches[b].state.BatchPaused? {
        return Err(NotPaused);
      }
      var _ := store.ResumeBatch(b);
      return Ok(store.batches[b]);
    }

    method SettleEntryFor(e: nat, end: End, now: Time)
      requires store.Valid() && e < |store.entries|
      modifies store
      ensures store.Valid() && store.Rows() == RunQueue.SettleEntryFor(old(store.Rows()), e, end, now)
    {
      var b := store.entries[e].batch;
      var settled := store.Settle(e, OutcomeOf(end), Some(DetailOf(end)), now);
      if Pauses(end) {
        var _ := store.PauseBatch(b, PauseReason(end));
      } else if end.EndStopped? {
        var _ := store.AbortBatch(b, "a run in this batch was stopped", now);
      } else {
        var _ := store.SettleBatchIfFinished(b, now);
      }
    }

    /** A waiting entry whose batch is not running leaves the queue unrun. */
    method Decline(e: nat, now: Time)
      requires store.Valid() && Waits(store.Rows(), e) && !BatchOf(store.Rows(), e).state.BatchRunning?
      modifies store
      ensures store.Valid() && store.Rows() == Next(old(store.Rows()), Step.Decline(e, now))
    {
      var batch := store.batches[store.entries[e].batch];
      if batch.state.BatchPaused? {
        var _ := store.Park(e, if batch.pauseReason.Some? then batch.pauseReason.value
            else "the batch this belongs to is paused");
      } else {
        var _ := store.Settle(e, Cancelled, Some("the batch this belongs to is over"), now);
      }
    }

    method Abandon(e: nat, detail: string, now: Time)
      requires store.Valid() && Admissible(store.Rows(), e)
      modifies store
      ensures store.Valid() && store.Rows() == Next(old(store.Rows()), Step.Abandon(e, detail, now))
    {
      var settled := store.Settle(e, Cancelled, Some(detail), now);
      var _ := store.SettleBatchIfFinished(settled.value.batch, now);
    }

    method Refuse(e: nat, message: string, now: Time)
      requires store.Valid() && e < |store.entries| && store.entries[e].state.Starting?
      modifies store
      ensures store.Valid() && store.Rows() == Next(old(store.Rows()), Step.Refuse(e, message, now))
    {
      var failed := store.Settle(e, Failed, Some(message), now);
      var _ := store.PauseBatch(failed.value.batch, "a run in this batch was refused: " + message);
    }

    /** The entry names its session; one that ended while it was starting is settled at once. */
    method Bind(e: nat, run: nat, session: nat, ended: Option<End>, now: Time)
      requires store.Valid() && e < |store.entries| && store.entries[e].state.Starting?
      modifies store
      ensures store.Valid() && store.Rows() == Next(old(store.Rows()), Step.Bind(e, run, session, ended, now))
    {
      hide RunQueue.SettleEntryFor;
      var _ := store.MarkRunning(e, run, session);
      if ended.Some? {
        SettleEntryFor(e, ended.value, now);
      }
    }

    /** How an entry stands with its own batch: its siblings' states first, then its inputs one by one. */
    method InBatchStanding(e: nat, inputs: seq<Consumed>) returns (standing: Standing)
      requires store.Valid() && e < |store.entries|
      ensures standing == StandingOf(SiblingStates(store.Rows(), e, |store.entries|), inputs)
    {
      ghost var q := store.Rows();
      var states: map<nat, EntryState> := map[];
      for f := 0 to |store.entries|
        invariant states == SiblingStates(q, e, f)
      {
        if Siblings(store.Rows(), e, f) {
          states := states[store.entries[f].command := store.entries[f].state];
        }
      }
      hide SiblingStates;
      var waiting, abandoned: set<nat> := {}, {};
      for k := 0 to |inputs|
        invariant abandoned == Dead(states, inputs[..k]) && waiting == Pending(states, inputs[..k])
      {
        var input := inputs[k];
        DeadNext(states, inputs[..k], input);
        assert inputs[..k + 1] == inputs[..k] + [input];
        if input.producer !in states || states[input.producer].Done? {
          continue;
        }
        if Settled(states[input.producer]) {
          if !input.bound {
            abandoned := abandoned + {input.producer};
          }
          continue;
        }
        waiting := waiting + {input.producer};
      }
      assert inputs[..|inputs|] == inputs;
      if abandoned != {} {
        return AbandonedBy(abandoned);
      }
      if waiting != {} {
        return WaitingOn(waiting);
      }
      return Ready;
    }

    /** A session's end settles the entry that names it, unless that is settled already. */
    method SessionEnded(e: nat, end: End, now: Time)
      requires store.Valid()
      modifies store
      ensures store.Valid() && store.Rows() == Next(old(store.Rows()), Step.SessionEnded(e, end, now))
    {
      hide RunQueue.SettleEntryFor;
      if e < |store.entries| && store.entries[e].sessionId.Some? && store.entries[e].settledAt.None? {
        SettleEntryFor(e, end, now);
      }
    }

    /** A step of another caller, through the gesture it belongs to. */
    method Come(step: Coming)
      requires store.Valid()
      modifies store
      ensures store.Valid() && store.Rows() == Next(old(store.Rows()), step)
    {
      hide Next;
      match step
      case Initiate(key, items, at) =>
        var _ := Initiate(key, items, at);
      case Cancel(e, at) =>
        var _ := Cancel(e, at);
      case Confirm(e, contract) =>
        var _ := Confirm(e, contract);
      case Resume(b) =>
        var _ := Resume(b);
      case FinishResume(b, at) => FinishResume(b, at);
      case SessionEnded(e, end, at) => SessionEnded(e, end, at);
    }

    method FinishResume(b: nat, now: Time)
      requires store.Valid()
      modifies store
      ensures store.Valid() && store.Rows() == Next(old(store.Rows()), Step.FinishResume(b, now))
    {
      if b < |store.batches| {
        var _ := store.SettleBatchIfFinished(b, now);
      }
    }

    /** What arrives while a start is awaited: a call to drain is remembered, unless the queue has been stopped. */
    method Receive(arrivals: seq<Arrival>)
      requires store.Valid() && draining
      modifies store, this`stopped, this`drainAgain
      ensures store.Valid() && store.Rows() == Arrive(old(store.Rows()), arrivals)
      ensures CallsKept(arrivals, old(stopped), stopped, old(drainAgain), drainAgain)
    {
      ghost var q := store.Rows();
      hide Next;
      for k := 0 to |arrivals|
        invariant store.Valid() && store.Rows() == Arrive(q, arrivals[..k])
        invariant CallsKept(arrivals[..k], old(stopped), stopped, old(drainAgain), drainAgain)
      {
        ghost var n: nat := k + 1;
        assert arrivals[..n] == arrivals[..k] + [arrivals[k]] && arrivals[..n][..k] == arrivals[..k];
        match arrivals[k]
        case Gesture(step) => Come(step);
        case Shutdown => stopped := true;
        case DrainCall =>
          if !stopped {
            drainAgain := true;
          }
      }
      assert arrivals[..|arrivals|] == arrivals;
    }

    /** One waiting entry's turn: its batch first, then its producers, then its contract, then the start itself. */
    method Admit(e: nat, inputs: seq<Consumed>, decided: Decided, group: seq<Arrival>, now: Time)
        returns (started: bool, meanwhile: seq<Arrival>)
      requires store.Valid() && Sound(store.Rows()) && Waits(store.Rows(), e) && draining
      modifies store, this`stopped, this`drainAgain
      ensures store.Valid()
      ensures var q := old(store.Rows());
          TurnTaken(q, e, AnswerTo(q, e, inputs, decided), group, now, store.Rows(), started, meanwhile)
      ensures CallsKept(meanwhile, old(stopped), stopped, old(drainAgain), drainAgain)
    {
      ghost var q, answer := store.Rows(), AnswerTo(store.Rows(), e, inputs, decided);
      UnstartedTurn(q, e, answer, group, now);
      hide TurnTaken, Next, Sound;
      if !store.batches[store.entries[e].batch].state.BatchRunning? {
        Decline(e, now);
        return false, [];
      }
      var standing := InBatchStanding(e, inputs);
      assert answer == Answered(standing, decided);
      hide SiblingStates, StandingOf, AnswerTo;
      if standing.Ready? {
        started, meanwhile := Enter(e, decided, group, now);
      } else {
        PassOver(e, standing, now);
        return false, [];
      }
    }

    /** An entry that is not ready waits on, or is called off when what it waits for will never be produced. */
    method PassOver(e: nat, standing: Standing, now: Time)
      requires store.Valid() && Admissible(store.Rows(), e) && !standing.Ready?
      modifies store
      ensures store.Valid()
      ensures store.Rows() == if standing.WaitingOn? then old(store.Rows())
          else Next(old(store.Rows()), Step.Abandon(e, ABANDONED, now))
    {
      if standing.AbandonedBy? {
        Abandon(e, ABANDONED, now);
      }
    }

    /** A viable entry: a contract that drifted is asked about again, and anything else is started. */
    method Enter(e: nat, decided: Decided, group: seq<Arrival>, now: Time)
        returns (started: bool, meanwhile: seq<Arrival>)
      requires store.Valid() && Sound(store.Rows()) && Admissible(store.Rows(), e) && draining
      modifies store, this`stopped, this`drainAgain
      ensures store.Valid()
      ensures TurnTaken(old(store.Rows()), e, decided, group, now, store.Rows(), started, meanwhile)
      ensures CallsKept(meanwhile, old(stopped), stopped, old(drainAgain), drainAgain)
    {
      ghost var q := store.Rows();
      StartsWhenAdmissible(q, e, now);
      StartStarts(q, e, now);
      NextFollows(q, Start(e, now));
      if decided.Drifted? {
        UnstartedTurn(q, e, decided, group, now);
        hide Next, TurnTaken;
        var _ := store.MarkNeedsReask(e, decided.detail);
        return false, [];
      }
      started, meanwhile := true, if EndsAtOnce(decided) then group + [DrainCall] else group;
      ghost var begun := Next(q, Start(e, now));
      ArriveFollows(begun, meanwhile);
      hide Next, RunQueue.MarkStarting, Evolves, RowSound, Fits, BatchSound;
      var _ := store.MarkStarting(e, now);
      Receive(meanwhile);
      if decided.Refused? {
        Refuse(e, decided.message, now);
      } else {
        Bind(e, decided.run, decided.session, decided.ended, now);
      }
    }

    /** The first waiting entry this pass has not looked at. */
    method NextUntried(tried: seq<nat>) returns (first: Option<nat>)
      requires store.Valid()
      ensures first.None? ==> forall e: nat | Waits(store.Rows(), e) :: e in tried
      ensures first.Some? ==> Waits(store.Rows(), first.value) && first.value !in tried
      ensures first.Some? ==> forall e: nat | Waits(store.Rows(), e) && e !in tried ::
          Before(store.entries[first.value], store.entries[e])
      ensures first.Some? ==> forall e: nat | Waits(store.Rows(), e) && e !in tried ::
          || store.entries[first.value].enqueuedAt < store.entries[e].enqueuedAt
          || (store.entries[first.value].enqueuedAt == store.entries[e].enqueuedAt
              && store.entries[first.value].position <= store.entries[e].position)
    {
      hide HasPosition, RunQueue.Waiting, Linked;
      var waiting := store.Waiting();
      for k := 0 to |waiting|
        invariant forall j | 0 <= j < k :: waiting[j].entry.id in tried
      {
        if waiting[k].entry.id !in tried {
          forall e: nat | Waits(store.Rows(), e) && e !in tried
            ensures Before(waiting[k].entry, store.entries[e])
          {
            assert Listed(waiting, e);
          }
          return Some(waiting[k].entry.id);
        }
      }
      forall e: nat | Waits(store.Rows(), e)
        ensures e in tried
      {
        assert Listed(waiting, e);
      }
      return None;
    }

    /**
     * One pass: admits what is waiting, first come first, while a session slot is free, and gives no entry two turns.
     * The groups of `arrivals` come in turn, one while each start is awaited.
     */
    method Pass(inputs: Wiring, decide: Deciding, live: Queue -> nat, arrivals: seq<seq<Arrival>>, from: nat, now: Time)
        returns (turns: seq<Turn>, used: nat)
      requires store.Valid() && Sound(store.Rows()) && draining && !drainAgain && from <= |arrivals|
      modifies store, this`stopped, this`drainAgain
      ensures store.Valid() && Passing(old(store.Rows()), turns, Ask(inputs, decide), now, store.Rows())
      ensures stopped || live(store.Rows()) >= limit
          || Finished(old(store.Rows()), turns, Ask(inputs, decide), now, store.Rows())
      ensures old(stopped) ==> stopped
      ensures drainAgain ==> Called(turns)
      ensures Called(turns) ==> drainAgain || stopped
      ensures from <= used <= |arrivals| && (used == from ==> Quiet(turns))
    {
      ghost var q, world := store.Rows(), Ask(inputs, decide);
      turns, used := [], from;
      PassingBegins(q, world, now);
      hide Passing, TurnTaken, AnswerTo, Ask, Finished, RowSound, Fits, BatchSound, Called, Quiet;
      while true
        invariant store.Valid() && Sound(store.Rows()) && Passing(q, turns, world, now, store.Rows())
        invariant (old(stopped) ==> stopped) && (drainAgain ==> Called(turns))
            && (Called(turns) ==> drainAgain || stopped)
        invariant from <= used <= |arrivals| && (used == from ==> Quiet(turns)) && |turns| <= |store.entries|
        decreases |arrivals| - used, |store.entries| - |turns|
      {
        if stopped || live(store.Rows()) >= limit {
          break;
        }
        var first := NextUntried(Entries(turns));
        if first.None? {
          PassingFinishes(q, turns, world, now, store.Rows());
          break;
        }
        var rows, next := store.Rows(), first.value;
        var group := if used < |arrivals| then arrivals[used] else [];
        AskIs(inputs, decide, rows, next);
        var started, meanwhile := Admit(next, inputs(rows, next), decide(rows, next), group, now);
        TurnAdds(q, turns, world, now, rows, next, group, store.Rows(), started, meanwhile);
        turns := turns + [Turn(next, meanwhile)];
        if started && used < |arrivals| {
          used := used + 1;
        }
      }
    }

    /**
     * Admits what is waiting. A call that finds a drain under way is remembered, and answered by one more pass; the
     * drain ends with a pass in which none came, or because the queue was stopped.
     */
    method Drain(inputs: Wiring, decide: Deciding, live: Queue -> nat, arrivals: seq<seq<Arrival>>, now: Time)
        returns (passes: seq<seq<Turn>>)
      requires store.Valid() && Sound(store.Rows())
      modifies store, this`stopped, this`draining, this`drainAgain
      ensures store.Valid() && store.Rows() == PassesFrom(old(store.Rows()), passes, Ask(inputs, decide), now)
      ensures Follows(old(store.Rows()), store.Rows()) && draining == old(draining)
      ensures old(stopped) ==> passes == [] && stopped && drainAgain == old(drainAgain)
      ensures !old(stopped) && old(draining) ==> passes == [] && drainAgain
      ensures !old(stopped) && !old(draining) ==>
          && AllAnswered(passes, stopped)
          && (stopped || live(store.Rows()) >= limit
              || Finished(PassesFrom(old(store.Rows()), passes[..|passes| - 1], Ask(inputs, decide), now),
                   passes[|passes| - 1], Ask(inputs, decide), now, store.Rows()))
    {
      passes := [];
      FollowsItself(store.Rows());
      if stopped {
        return;
      }
      if draining {
        drainAgain := true;
        return;
      }
      ghost var q, world := store.Rows(), Ask(inputs, decide);
      var used := 0;
      draining := true;
      hide Passing, PassFrom, Finished, RowSound, Fits, BatchSound, Evolves, Ask, Called, Quiet;
      while true
        invariant store.Valid() && draining && Follows(q, store.Rows()) && used <= |arrivals|
        invariant store.Rows() == PassesFrom(q, passes, world, now)
        invariant forall p | 0 <= p < |passes| :: Called(passes[p])
        decreases |arrivals| - used, QueuedIn(store.entries)
      {
        drainAgain := false;
        ghost var began, front := store.Rows(), passes;
        var turns, upTo := Pass(inputs, decide, live, arrivals, used, now);
        PassingFollows(began, turns, world, now, store.Rows());
        FollowsOn(q, began, store.Rows());
        passes := passes + [turns];
        assert passes[..|passes| - 1] == front;
        if !drainAgain || stopped {
          break;
        }
        if upTo == used {
          CalledLeavesFewer(began, turns, world, now, store.Rows());
        }
        used := upTo;
      }
      draining := false;
    }
  }
}
