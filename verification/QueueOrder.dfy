/** The order entries wait in, which no step rewrites, and a pass of admission over them. */
module QueueOrder {
  import opened Wrappers
  import opened Sorting
  import opened RunQueue
  import opened QueueRuns
  import opened QueueStops

  // ----- waiting is a queue

  lemma RowsDistinct(q: Queue)
    requires Linked(q)
    ensures Distinct(q.entries)
  {
    forall i, j | 0 <= i < j < |q.entries|
      ensures q.entries[i] != q.entries[j]
    {
      assert q.entries[i].id == i && q.entries[j].id == j;
    }
  }

  /** Exactly the queued entries wait, each once, ordered by when they were enqueued and then by position. */
  lemma WaitingIsAQueue(q: Queue)
    requires Linked(q)
    ensures forall e :: e in Waiting(q) <==> e in q.entries && e.state.Queued?
    ensures Distinct(Waiting(q))
    ensures forall i, j | 0 <= i < j < |Waiting(q)| :: Before(Waiting(q)[i], Waiting(q)[j])
    ensures forall i, j | 0 <= i < j < |Waiting(q)| ::
      || Waiting(q)[i].enqueuedAt < Waiting(q)[j].enqueuedAt
      || (Waiting(q)[i].enqueuedAt == Waiting(q)[j].enqueuedAt && Waiting(q)[i].position <= Waiting(q)[j].position)
  {
    var leq := (a: Entry, b: Entry) => Before(a, b);
    SortIsSorted(QueuedRows(q), leq);
    RowsDistinct(q);
    FilterDistinct(q.entries, (e: Entry) => e.state.Queued?);
    DistinctReordered(QueuedRows(q), Waiting(q));
    forall e
      ensures e in Waiting(q) <==> e in q.entries && e.state.Queued?
    {
      assert e in Waiting(q) <==> e in multiset(Waiting(q));
      assert e in QueuedRows(q) <==> e in multiset(QueuedRows(q));
    }
  }

  ghost predicate Waits(q: Queue, a: nat) {
    a < |q.entries| && q.entries[a].state.Queued?
  }

  /** The place entry `a` shows in the queue, counted from one. */
  ghost predicate HasPosition(q: Queue, a: nat, position: nat) {
    1 <= position <= |Waiting(q)| && Waiting(q)[position - 1].id == a
  }

  /** The one position a waiting entry shows. */
  ghost function PositionOf(q: Queue, a: nat): (position: nat)
    requires Linked(q) && Waits(q, a)
    ensures forall p: nat :: HasPosition(q, a, p) <==> p == position
  {
    WaitingIsAQueue(q);
    var k :| 0 <= k < |Waiting(q)| && Waiting(q)[k] == q.entries[a];
    OnePosition(q, a, k + 1);
    k + 1
  }

  lemma OnePosition(q: Queue, a: nat, position: nat)
    requires Linked(q) && Waits(q, a) && HasPosition(q, a, position)
    ensures forall p: nat :: HasPosition(q, a, p) <==> p == position
  {
    WaitingIsAQueue(q);
    forall p: nat | HasPosition(q, a, p)
      ensures p == position
    {
      assert Waiting(q)[p - 1] in q.entries && Waiting(q)[position - 1] in q.entries;
      assert Waiting(q)[p - 1] == Waiting(q)[position - 1];
    }
  }

  /** Of two entries waiting, the one with the earlier key shows the smaller position. */
  lemma EarlierKeyFirst(q: Queue, a: nat, b: nat)
    requires Linked(q) && Waits(q, a) && Waits(q, b) && !Before(q.entries[b], q.entries[a])
    ensures PositionOf(q, a) < PositionOf(q, b)
  {
    WaitingIsAQueue(q);
    var m, n := PositionOf(q, a), PositionOf(q, b);
    assert HasPosition(q, a, m) && HasPosition(q, b, n);
    assert Waiting(q)[m - 1] in q.entries && Waiting(q)[n - 1] in q.entries;
    assert Waiting(q)[m - 1] == q.entries[a] && Waiting(q)[n - 1] == q.entries[b];
  }

  /** Two entries whose keys differ never swap: whatever run lies between, pauses, re-asks and restarts included. */
  lemma NeverSwapped(q: Queue, steps: seq<Step>, a: nat, b: nat)
    requires Sound(q) && Waits(q, a) && Waits(q, b) && Waits(Run(q, steps), a) && Waits(Run(q, steps), b)
    requires Before(q.entries[a], q.entries[b]) != Before(q.entries[b], q.entries[a])
    ensures PositionOf(q, a) < PositionOf(q, b) <==> PositionOf(Run(q, steps), a) < PositionOf(Run(q, steps), b)
  {
    EveryRunFollows(q, steps);
    var r := Run(q, steps);
    hide Run, HasPosition, RowSound, Fits, BatchSound, PositionOf;
    assert Evolves(q.entries[a], r.entries[a]) && Evolves(q.entries[b], r.entries[b]);
    if Before(q.entries[a], q.entries[b]) {
      EarlierKeyFirst(q, a, b);
      EarlierKeyFirst(r, a, b);
    } else {
      EarlierKeyFirst(q, b, a);
      EarlierKeyFirst(r, b, a);
    }
  }

  /**
   * Gesture order first: whatever its position in its batch, an entry enqueued later waits behind one enqueued before
   * it.
   */
  lemma LaterWaitsBehind(q: Queue, a: nat, b: nat)
    requires Linked(q) && Waits(q, a) && Waits(q, b) && q.entries[a].enqueuedAt < q.entries[b].enqueuedAt
    ensures PositionOf(q, a) < PositionOf(q, b)
  {
    EarlierKeyFirst(q, a, b);
  }

  /** Dependency order second: of two entries enqueued together, the one placed earlier in its batch waits in front. */
  lemma EarlierPlaceInFront(q: Queue, a: nat, b: nat)
    requires Linked(q) && Waits(q, a) && Waits(q, b) && q.entries[a].enqueuedAt == q.entries[b].enqueuedAt
    requires q.entries[a].position < q.entries[b].position
    ensures PositionOf(q, a) < PositionOf(q, b)
  {
    EarlierKeyFirst(q, a, b);
  }

  /** So a batch initiated later never overtakes what was enqueued before it, through any run that follows. */
  lemma LaterBatchNeverOvertakes(q: Queue, key: nat, items: seq<Item>, now: Time, steps: seq<Step>, a: nat, b: nat)
    requires Sound(q) && Taken(q, Initiate(key, items, now))
    requires a < |q.entries| <= b && q.entries[a].enqueuedAt < now && b < |q.entries| + |items|
    ensures Linked(Next(q, Initiate(key, items, now)))
    ensures var r := Run(Next(q, Initiate(key, items, now)), steps);
      Linked(r) && (Waits(r, a) && Waits(r, b) ==> PositionOf(r, a) < PositionOf(r, b))
  {
    var first := Next(q, Initiate(key, items, now));
    NextFollows(q, Initiate(key, items, now));
    EveryRunFollows(first, steps);
    assert first.entries[b].enqueuedAt == now && first.entries[a].enqueuedAt == q.entries[a].enqueuedAt;
    var r := Run(first, steps);
    hide Run, Next, RowSound, Fits, BatchSound, PositionOf;
    assert Evolves(first.entries[a], r.entries[a]) && Evolves(first.entries[b], r.entries[b]);
    if Waits(r, a) && Waits(r, b) {
      LaterWaitsBehind(r, a, b);
    }
  }

  // ----- no batch sits at running with nothing to run

  /** Every running batch has something to come, save those a resume has just set going and not yet looked at again. */
  ghost predicate NoneIdle(q: Queue, resumed: set<nat>) {
    forall b | 0 <= b < |q.batches| && q.batches[b].state.BatchRunning? :: b in resumed || HasOutstanding(q, b)
  }

  ghost function Resumed(resumed: set<nat>, step: Step): set<nat> {
    match step
    case Resume(b) => resumed + {b}
    case FinishResume(b, _) => resumed - {b}
    case _ => resumed
  }

  lemma OutstandingElsewhere(q: Queue, r: Queue, b: nat, c: nat)
    requires OnlyIn(q, r, c) && b != c && HasOutstanding(q, b)
    ensures HasOutstanding(r, b)
  {
    var i :| 0 <= i < |q.entries| && q.entries[i].batch == b && Outstanding(q.entries[i].state);
    assert r.entries[i] == q.entries[i];
  }

  lemma OutstandingOverall(q: Queue, step: Step, b: nat)
    requires Linked(q) && HasOutstanding(q, b) && (step.Initiate? || step.Reclaim?)
    ensures HasOutstanding(Next(q, step), b)
  {
    var i :| 0 <= i < |q.entries| && q.entries[i].batch == b && Outstanding(q.entries[i].state);
    assert Next(q, step).entries[i].batch == b && Outstanding(Next(q, step).entries[i].state);
  }

  lemma FinishedOrBusy(q: Queue, b: nat, now: Time)
    requires b < |q.batches|
    ensures var r := SettleBatchIfFinished(q, b, now); r.batches[b].state.BatchRunning? ==> HasOutstanding(r, b)
  {
  }

  /** The step's own batch, if it is running afterwards, still has something to come. */
  lemma OwnBatchBusy(q: Queue, step: Step)
    requires Sound(q) && Taken(q, step) && !step.Initiate? && !step.Reclaim? && !step.Resume?
    requires StateAfter(q, step, BatchAt(q, step)).BatchRunning?
    ensures HasOutstanding(Next(q, step), BatchAt(q, step))
  {
    hide SettleBatchIfFinished, KeysKept, HasOutstanding, RowSound, Fits, BatchSound;
    var b := BatchAt(q, step);
    match step
    case Cancel(e, now) => FinishedOrBusy(Settle(q, e, Cancelled, Some("cancelled before it started"), now), b, now);
    case Abandon(e, detail, now) => FinishedOrBusy(Settle(q, e, Cancelled, Some(detail), now), b, now);
    case FinishResume(_, now) => FinishedOrBusy(q, b, now);
    case Bind(e, run, session, ended, now) =>
      if ended.Some? {
        EndBusy(MarkRunning(q, e, run, session), e, ended.value, now);
      } else {
        Busy(Next(q, step), e);
      }
    case SessionEnded(e, end, now) => EndBusy(q, e, end, now);
    case Refuse(_, _, _) =>
    case _ => EntryStepBusy(q, step);
  }

  lemma Busy(q: Queue, e: nat)
    requires e < |q.entries| && Outstanding(q.entries[e].state)
    ensures HasOutstanding(q, q.entries[e].batch)
  {
  }

  lemma EndBusy(q: Queue, e: nat, end: End, now: Time)
    requires e < |q.entries| && q.entries[e].batch < |q.batches|
    requires SettleEntryFor(q, e, end, now).batches[q.entries[e].batch].state.BatchRunning?
    ensures HasOutstanding(SettleEntryFor(q, e, end, now), q.entries[e].batch)
  {
    FinishedOrBusy(Settle(q, e, OutcomeOf(end), Some(DetailOf(end)), now), q.entries[e].batch, now);
  }

  lemma EntryStepBusy(q: Queue, step: Step)
    requires Sound(q) && Taken(q, step)
    requires step.Confirm? || step.Decline? || step.Reask? || step.Start? || step.ReclaimOne?
    requires StateAfter(q, step, q.entries[step.entry].batch).BatchRunning?
    ensures HasOutstanding(Next(q, step), q.entries[step.entry].batch)
  {
    EntryStepOnlyIn(q, step);
    var e := step.entry;
    assert RowSound(q.entries[e]);
    EntryStepMovesOneRow(q, step);
    assert Outstanding(Next(q, step).entries[e].state) by {
      hide KeysKept, HasOutstanding, OnlyIn, Evolves;
    }
    hide Next, RowSound, Fits;
    Busy(Next(q, step), e);
  }

  lemma NextNoneIdle(q: Queue, step: Step, resumed: set<nat>)
    requires Sound(q) && NoneIdle(q, resumed)
    ensures NoneIdle(Next(q, step), Resumed(resumed, step))
  {
    var r := Next(q, step);
    NextLinked(q, step);
    forall b | 0 <= b < |r.batches| && r.batches[b].state.BatchRunning?
      ensures b in Resumed(resumed, step) || HasOutstanding(r, b)
    {
      hide Next, RowSound, Fits, BatchSound, HasOutstanding, Taken;
      if b == |q.batches| || |r.batches| > |q.batches| {
        NewBatchBusy(q, step, b, resumed);
      } else {
        BatchMovesIff(q, step, b);
        OldBatchBusy(q, step, b, resumed);
      }
    }
  }

  lemma NewBatchBusy(q: Queue, step: Step, b: nat, resumed: set<nat>)
    requires Sound(q) && NoneIdle(q, resumed)
    requires b < |Next(q, step).batches| && |Next(q, step).batches| > |q.batches|
        && Next(q, step).batches[b].state.BatchRunning?
    ensures b in Resumed(resumed, step) || HasOutstanding(Next(q, step), b)
  {
    OnlyInitiateAdds(q, step);
    if b == |q.batches| {
      Busy(Next(q, step), |q.entries|);
    } else if b !in resumed {
      OutstandingOverall(q, step, b);
    }
  }

  lemma OnlyInitiateAdds(q: Queue, step: Step)
    requires Sound(q) && |Next(q, step).batches| > |q.batches|
    ensures step.Initiate? && Taken(q, step)
  {
    if !step.Initiate? && !step.Reclaim? {
      NextOnlyIn(q, step);
    }
  }

  lemma OldBatchBusy(q: Queue, step: Step, b: nat, resumed: set<nat>)
    requires Sound(q) && NoneIdle(q, resumed) && b < |q.batches|
    requires StateAfter(q, step, b).BatchRunning?
    ensures b in Resumed(resumed, step) || HasOutstanding(Next(q, step), b)
  {
    hide Next, RowSound, Fits, BatchSound, HasOutstanding;
    BatchMovesIff(q, step, b);
    if step.Initiate? || step.Reclaim? {
      if b !in resumed {
        OutstandingOverall(q, step, b);
      }
    } else if BatchAt(q, step) != b {
      NextOnlyIn(q, step);
      if b !in resumed {
        OutstandingElsewhere(q, Next(q, step), b, BatchAt(q, step));
      }
    } else if Taken(q, step) && !step.Resume? {
      OwnBatchBusy(q, step);
    } else if !Taken(q, step) {
      NotTakenStays(q, step);
    }
  }

  ghost function ResumedOver(resumed: set<nat>, steps: seq<Step>): set<nat>
    decreases |steps|
  {
    if steps == [] then resumed else ResumedOver(Resumed(resumed, steps[0]), steps[1..])
  }

  /** Over any run in which each resume gets its second look, no batch is left running with nothing to run. */
  lemma {:induction false} EveryRunNoneIdle(q: Queue, steps: seq<Step>, resumed: set<nat>)
    requires Sound(q) && NoneIdle(q, resumed)
    ensures NoneIdle(Run(q, steps), ResumedOver(resumed, steps))
    decreases |steps|
  {
    hide Next, RowSound, Fits, BatchSound, NoneIdle, Resumed;
    if steps != [] {
      NextFollows(q, steps[0]);
      NextNoneIdle(q, steps[0], resumed);
      EveryRunNoneIdle(Next(q, steps[0]), steps[1..], Resumed(resumed, steps[0]));
    }
  }
}
