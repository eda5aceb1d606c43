/**
 * When a finished drain leaves a batch stranded: running, an entry of it waiting, and nothing of it left to wake the
 * queue (apps/server/src/runs/queue.ts).
 */
module Stranding {
  import opened Wrappers
  import opened Sorting
  import opened Reachability
  import opened Scopes
  import opened RunQueue
  import opened QueueRuns
  import opened QueueStops
  import opened QueueOrder
  import opened Admission
  import opened BatchStanding

  predicate Runs(q: Queue, b: nat) {
    b < |q.batches| && q.batches[b].state.BatchRunning?
  }

  ghost predicate Stranded(r: Queue, b: nat) {
    && Runs(r, b) && !Alive(r, b)
    && exists e: nat :: Waits(r, e) && r.entries[e].batch == b
  }

  /** An answer that leaves nothing of its entry going: not its turn, never its turn, or started and already done. */
  predicate Spent(answer: Answer) {
    || answer.NotYet? || answer.Abandoned?
    || (answer.Launched? && answer.ended.Some? && (answer.ended.value.EndCompleted? || answer.ended.value.EndByUser?))
  }

  // ----- one turn

  lemma AdmitOnlyIn(s: Queue, e: nat, answer: Answer, now: Time)
    requires Sound(s) && Waits(s, e) && BatchOf(s, e).state.BatchRunning?
    ensures OnlyIn(s, Admit(s, e, answer, now), s.entries[e].batch)
  {
    hide Next, RowSound, Fits, BatchSound, OnlyIn;
    match answer
    case NotYet => OnlyInItself(s, s.entries[e].batch);
    case Abandoned(detail) => NextOnlyIn(s, Abandon(e, detail, now));
    case Drifted(detail) => NextOnlyIn(s, Reask(e, detail));
    case Refused(message) => StartedOnlyIn(s, e, Refuse(e, message, now), now);
    case Launched(run, session, ended) => StartedOnlyIn(s, e, Bind(e, run, session, ended, now), now);
  }

  lemma StartedOnlyIn(s: Queue, e: nat, second: Step, now: Time)
    requires Sound(s) && Admissible(s, e) && (second.Refuse? || second.Bind?) && second.entry == e
    ensures Linked(Next(s, Start(e, now)))
    ensures OnlyIn(s, Next(Next(s, Start(e, now)), second), s.entries[e].batch)
  {
    var started := Next(s, Start(e, now));
    StartKeepsBatch(s, e, now);
    NextFollows(s, Start(e, now));
    NextOnlyIn(s, Start(e, now));
    hide Next, RowSound, Fits, BatchSound, OnlyIn;
    NextOnlyIn(started, second);
    OnlyInBoth(s, started, Next(started, second), s.entries[e].batch);
  }

  lemma StartKeepsBatch(s: Queue, e: nat, now: Time)
    requires Linked(s) && Admissible(s, e)
    ensures var r := Next(s, Start(e, now));
            r.batches == s.batches && |r.entries| == |s.entries| && r.entries[e].batch == s.entries[e].batch
  {
  }

  /** No admission sets a batch running. */
  lemma AdmitRunsBack(s: Queue, e: nat, answer: Answer, now: Time, b: nat)
    requires Sound(s) && b < |s.batches|
    ensures var r := Admit(s, e, answer, now);
            |r.batches| == |s.batches| && (r.batches[b].state.BatchRunning? ==> s.batches[b].state.BatchRunning?)
  {
    hide RowSound, Fits, BatchSound, Next;
    if Waits(s, e) && !(BatchOf(s, e).state.BatchRunning? && answer.NotYet?) {
      var step := if !BatchOf(s, e).state.BatchRunning? then Decline(e, now) else
        match answer
        case Abandoned(detail) => Abandon(e, detail, now)
        case Drifted(detail) => Reask(e, detail)
        case _ => Start(e, now);
      StepRunsBack(s, step, b);
      if step.Start? {
        StartStarts(s, e, now);
        NextFollows(s, step);
        var second := if answer.Refused? then Refuse(e, answer.message, now)
            else Bind(e, answer.run, answer.session, answer.ended, now);
        StepRunsBack(Next(s, step), second, b);
      }
    }
  }

  lemma StepRunsBack(s: Queue, step: Step, b: nat)
    requires Sound(s) && b < |s.batches| && Admitting(step)
    ensures var r := Next(s, step);
            |r.batches| == |s.batches| && (r.batches[b].state.BatchRunning? ==> s.batches[b].state.BatchRunning?)
  {
    BatchMovesIff(s, step, b);
    NextOnlyIn(s, step);
    hide Next, RowSound, Fits, BatchSound;
  }

  /** What a turn leaves of its own entry, if the batch goes on running. */
  ghost predicate Leaves(r: Queue, e: nat, answer: Answer)
    requires e < |r.entries|
  {
    if answer.NotYet? then r.entries[e].state.Queued?
    else if Spent(answer) then Settled(r.entries[e].state)
    else r.entries[e].state.NeedsReask? || r.entries[e].state.Running?
  }

  lemma TurnLeaves(s: Queue, e: nat, answer: Answer, now: Time)
    requires Sound(s) && Waits(s, e) && BatchOf(s, e).state.BatchRunning?
    ensures var r := Admit(s, e, answer, now);
            |r.entries| == |s.entries| && (BatchOf(r, e).state.BatchRunning? ==> Leaves(r, e, answer))
  {
    hide KeysKept, RowSound, Fits, BatchSound, SettleEntryFor;
    match answer
    case NotYet =>
    case Abandoned(detail) =>
    case Drifted(detail) =>
    case Refused(message) => StartStarts(s, e, now);
    case Launched(run, session, ended) =>
      StartStarts(s, e, now);
      var started := Next(s, Start(e, now));
      NextFollows(s, Start(e, now));
      BindLeaves(started, e, run, session, ended, now);
  }

  lemma BindLeaves(s: Queue, e: nat, run: nat, session: nat, ended: Option<End>, now: Time)
    requires Sound(s) && e < |s.entries| && s.entries[e].state.Starting?
    ensures var r := Next(s, Bind(e, run, session, ended, now));
            |r.entries| == |s.entries|
            && (BatchOf(r, e).state.BatchRunning? ==> Leaves(r, e, Launched(run, session, ended)))
  {
    hide KeysKept, RowSound, Fits, BatchSound, HasOutstanding, PauseReason, DetailOf;
  }

  /** While another entry of the batch waits, a spent turn leaves the batch running and that entry waiting. */
  lemma SpentKeepsRunning(s: Queue, e: nat, answer: Answer, now: Time, g: nat)
    requires Sound(s) && Waits(s, e) && BatchOf(s, e).state.BatchRunning? && Spent(answer)
    requires Waits(s, g) && g != e && s.entries[g].batch == s.entries[e].batch
    ensures var r := Admit(s, e, answer, now);
            |r.entries| == |s.entries| && |r.batches| == |s.batches|
            && r.batches[s.entries[e].batch].state.BatchRunning? && Waits(r, g)
  {
    hide KeysKept, RowSound, Fits, BatchSound, SettleEntryFor;
    match answer
    case NotYet =>
    case Abandoned(detail) =>
      var settled := Settle(s, e, Cancelled, Some(detail), now);
      assert Outstanding(settled.entries[g].state);
    case Launched(run, session, ended) =>
      StartStarts(s, e, now);
      EndedKeepsRunning(MarkStarting(s, e, now), e, run, session, ended.value, now, g);
  }

  lemma EndedKeepsRunning(s: Queue, e: nat, run: nat, session: nat, end: End, now: Time, g: nat)
    requires Linked(s) && e < |s.entries| && s.entries[e].state.Starting? && BatchOf(s, e).state.BatchRunning?
    requires end.EndCompleted? || end.EndByUser?
    requires Waits(s, g) && s.entries[g].batch == s.entries[e].batch
    ensures var r := Next(s, Bind(e, run, session, Some(end), now));
            |r.entries| == |s.entries| && |r.batches| == |s.batches|
            && r.batches[s.entries[e].batch].state.BatchRunning? && Waits(r, g)
  {
    hide KeysKept;
    var settled := Settle(MarkRunning(s, e, run, session), e, OutcomeOf(end), Some(DetailOf(end)), now);
    assert Outstanding(settled.entries[g].state);
  }

  // ----- a pass, turn by turn

  /** The queue as the k-th turn of a pass finds it, and what that turn is told. */
  ghost function At(q: Queue, tried: seq<nat>, world: World, now: Time, k: nat): Queue
    requires Linked(q) && k <= |tried|
  {
    AdmitAll(q, tried[..k], world, now)
  }

  ghost function Told(q: Queue, tried: seq<nat>, world: World, now: Time, k: nat): Answer
    requires Linked(q) && k < |tried|
  {
    world(At(q, tried, world, now, k), tried[k])
  }

  lemma NextTurn(q: Queue, tried: seq<nat>, world: World, now: Time, k: nat)
    requires Linked(q) && k < |tried|
    ensures var s := At(q, tried, world, now, k);
            Linked(s) && At(q, tried, world, now, k + 1) == Admit(s, tried[k], Told(q, tried, world, now, k), now)
  {
    assert tried[..k + 1][..k] == tried[..k];
  }

  lemma AtEnds(q: Queue, tried: seq<nat>, world: World, now: Time)
    requires Linked(q)
    ensures At(q, tried, world, now, 0) == q && At(q, tried, world, now, |tried|) == AdmitAll(q, tried, world, now)
  {
    assert tried[..0] == [] && tried[..|tried|] == tried;
  }

  /** At every turn the queue is sound, with the same rows in the same batches. */
  lemma AtFollows(q: Queue, tried: seq<nat>, world: World, now: Time, k: nat)
    requires Sound(q) && k <= |tried|
    ensures var s := At(q, tried, world, now, k);
            && Sound(s) && |s.entries| == |q.entries| && |s.batches| >= |q.batches|
            && forall i | 0 <= i < |q.entries| :: SameKey(q.entries[i], s.entries[i])
  {
    AdmitAllFollows(q, tried[..k], world, now);
    hide AdmitAll, RowSound, Fits, BatchSound;
    assert forall i | 0 <= i < |q.entries| :: Evolves(q.entries[i], At(q, tried, world, now, k).entries[i]);
  }

  /** A batch that runs at the end of a pass ran at each turn of it. */
  lemma {:induction false} RanBefore(q: Queue, tried: seq<nat>, world: World, now: Time, b: nat, k: nat, m: nat)
    requires Sound(q) && k <= m <= |tried| && b < |q.batches|
    requires Runs(At(q, tried, world, now, m), b)
    ensures Runs(At(q, tried, world, now, k), b)
    decreases m - k
  {
    if k < m {
      AtFollows(q, tried, world, now, k);
      AtFollows(q, tried, world, now, k + 1);
      NextTurn(q, tried, world, now, k);
      RanBefore(q, tried, world, now, b, k + 1, m);
      hide Sound, Admit, SameKey, At;
      AdmitRunsBack(At(q, tried, world, now, k), tried[k], Told(q, tried, world, now, k), now, b);
    }
  }

  /** Until its own turn, an entry tried waits, for as long as its batch runs. */
  lemma WaitsForTurn(q: Queue, tried: seq<nat>, world: World, now: Time, k: nat, m: nat)
    requires Sound(q) && Distinct(tried) && InOrder(q, tried) && k <= m < |tried|
    requires Waits(q, tried[m]) && Runs(At(q, tried, world, now, k), q.entries[tried[m]].batch)
    ensures Waits(At(q, tried, world, now, k), tried[m])
  {
    var e := tried[m];
    assert Waits(q, e);
    assert e !in tried[..k][0..];
    PastTurnStays(q, tried[..k], world, now, 0, e);
    assert tried[..k][..0] == [];
    AtFollows(q, tried, world, now, k);
  }

  /** After its turn, an entry keeps what the turn left it, if its batch runs on. */
  lemma KeepsItsOutcome(q: Queue, tried: seq<nat>, world: World, now: Time, k: nat)
    requires Sound(q) && Distinct(tried) && InOrder(q, tried) && k < |tried|
    requires Waits(q, tried[k]) && Runs(AdmitAll(q, tried, world, now), q.entries[tried[k]].batch)
    ensures tried[k] < |AdmitAll(q, tried, world, now).entries|
    ensures Leaves(AdmitAll(q, tried, world, now), tried[k], Told(q, tried, world, now, k))
  {
    var e, r, b := tried[k], AdmitAll(q, tried, world, now), q.entries[tried[k]].batch;
    AtEnds(q, tried, world, now);
    AtFollows(q, tried, world, now, |tried|);
    AtFollows(q, tried, world, now, k);
    AtFollows(q, tried, world, now, k + 1);
    RanBefore(q, tried, world, now, b, k, |tried|);
    WaitsForTurn(q, tried, world, now, k, k);
    NextTurn(q, tried, world, now, k);
    TurnLeaves(At(q, tried, world, now, k), e, Told(q, tried, world, now, k), now);
    assert e !in tried[k + 1..];
    PastTurnStays(q, tried, world, now, k + 1, e);
  }

  // ----- exactly when a batch is stranded

  /** A turn of the batch, and what it was told. */
  ghost predicate TurnOf(q: Queue, tried: seq<nat>, b: nat, k: nat) {
    k < |tried| && tried[k] < |q.entries| && q.entries[tried[k]].batch == b
  }

  ghost predicate ToldOnlyToWait(q: Queue, tried: seq<nat>, world: World, now: Time, b: nat)
    requires Linked(q)
  {
    && (forall k: nat | TurnOf(q, tried, b, k) :: Spent(Told(q, tried, world, now, k)))
    && (exists k: nat :: TurnOf(q, tried, b, k) && Told(q, tried, world, now, k).NotYet?)
  }

  lemma UntriedStays(q: Queue, tried: seq<nat>, world: World, now: Time, f: nat)
    requires Sound(q) && f < |q.entries| && f !in tried
    requires Runs(AdmitAll(q, tried, world, now), q.entries[f].batch)
    ensures |AdmitAll(q, tried, world, now).entries| == |q.entries|
    ensures AdmitAll(q, tried, world, now).entries[f].state == q.entries[f].state
  {
    AtFollows(q, tried, world, now, 0);
    AtEnds(q, tried, world, now);
    assert tried[0..] == tried;
    PastTurnStays(q, tried, world, now, 0, f);
    AtFollows(q, tried, world, now, |tried|);
  }

  /**
   * In a batch that runs to the end of a pass: who had no turn is as before, and who had one is as the turn left it.
   */
  lemma PassFacts(q: Queue, tried: seq<nat>, world: World, now: Time, r: Queue, b: nat)
    requires Drained(q, tried, world, now, r) && b < |q.batches| && Runs(r, b)
    ensures |r.entries| == |q.entries| && forall i | 0 <= i < |q.entries| :: r.entries[i].batch == q.entries[i].batch
    ensures Runs(q, b) && forall e: nat | Waits(r, e) :: e in tried
    ensures forall f: nat | f < |q.entries| && q.entries[f].batch == b && f !in tried ::
        r.entries[f].state == q.entries[f].state
    ensures forall k: nat | TurnOf(q, tried, b, k) ::
        q.entries[tried[k]].state.Queued? && Leaves(r, tried[k], Told(q, tried, world, now, k))
  {
    AtEnds(q, tried, world, now);
    AtFollows(q, tried, world, now, |tried|);
    RanBefore(q, tried, world, now, b, 0, |tried|);
    hide AdmitAll, RowSound, Fits, BatchSound, At, Admit, HeldBack;
    assert forall i | 0 <= i < |q.entries| :: SameKey(q.entries[i], r.entries[i]);
    hide SameKey;
    forall f: nat | f < |q.entries| && q.entries[f].batch == b && f !in tried
      ensures r.entries[f].state == q.entries[f].state
    {
      UntriedStays(q, tried, world, now, f);
    }
    forall k: nat | TurnOf(q, tried, b, k)
      ensures q.entries[tried[k]].state.Queued? && Leaves(r, tried[k], Told(q, tried, world, now, k))
    {
      assert Waits(q, tried[k]);
      KeepsItsOutcome(q, tried, world, now, k);
    }
  }

  lemma NothingWasAlive(q: Queue, tried: seq<nat>, world: World, now: Time, r: Queue, b: nat)
    requires Drained(q, tried, world, now, r) && b < |q.batches| && Stranded(r, b)
    ensures !Alive(q, b)
  {
    PassFacts(q, tried, world, now, r, b);
    hide Drained, Told, Leaves;
    forall f: nat | f < |q.entries| && q.entries[f].batch == b
      ensures !(q.entries[f].state.Starting? || q.entries[f].state.Running? || q.entries[f].state.NeedsReask?)
    {
      if f in tried {
        var k: nat :| k < |tried| && tried[k] == f;
        assert TurnOf(q, tried, b, k);
      } else {
        assert r.entries[f].state == q.entries[f].state;
      }
    }
  }

  lemma StrandedOnlyIf(q: Queue, tried: seq<nat>, world: World, now: Time, r: Queue, b: nat)
    requires Drained(q, tried, world, now, r) && b < |q.batches| && Stranded(r, b)
    ensures Runs(q, b) && !Alive(q, b) && ToldOnlyToWait(q, tried, world, now, b)
  {
    PassFacts(q, tried, world, now, r, b);
    NothingWasAlive(q, tried, world, now, r, b);
    hide Drained, Told, Spent, Alive;
    forall k: nat | TurnOf(q, tried, b, k)
      ensures Spent(Told(q, tried, world, now, k))
    {
      assert Leaves(r, tried[k], Told(q, tried, world, now, k));
      NothingLeftGoing(r, b, tried[k], Told(q, tried, world, now, k));
    }
    var e: nat :| Waits(r, e) && r.entries[e].batch == b;
    var w: nat :| w < |tried| && tried[w] == e;
    WaitingWasTold(q, tried, world, now, r, b, w);
  }

  lemma NothingLeftGoing(r: Queue, b: nat, e: nat, answer: Answer)
    requires !Alive(r, b) && e < |r.entries| && r.entries[e].batch == b && Leaves(r, e, answer)
    ensures Spent(answer)
  {
  }

  lemma WaitingWasTold(q: Queue, tried: seq<nat>, world: World, now: Time, r: Queue, b: nat, w: nat)
    requires Linked(q) && TurnOf(q, tried, b, w) && Waits(r, tried[w])
        && Leaves(r, tried[w], Told(q, tried, world, now, w))
    ensures Told(q, tried, world, now, w).NotYet?
  {
  }

  /** While somebody of the batch has been told to wait, or will be, spent turns leave the batch running. */
  lemma {:induction false} StillRuns(q: Queue, tried: seq<nat>, world: World, now: Time, b: nat, w: nat, k: nat)
    requires Sound(q) && Distinct(tried) && InOrder(q, tried) && Runs(q, b) && k <= |tried|
    requires TurnOf(q, tried, b, w) && (w < k ==> Told(q, tried, world, now, w).NotYet?)
    requires forall j: nat | j < k && TurnOf(q, tried, b, j) :: Spent(Told(q, tried, world, now, j))
    ensures var s := At(q, tried, world, now, k); Runs(s, b) && Waits(s, tried[w])
  {
    AtEnds(q, tried, world, now);
    if k > 0 {
      var e, s := tried[k - 1], At(q, tried, world, now, k - 1);
      var answer := Told(q, tried, world, now, k - 1);
      StillRuns(q, tried, world, now, b, w, k - 1);
      AtFollows(q, tried, world, now, k - 1);
      NextTurn(q, tried, world, now, k - 1);
      InItsBatch(q, tried, world, now, k - 1, w);
      hide At, Told, AdmitAll, Admit, Sound, SameKey;
      if q.entries[e].batch != b {
        OtherTurnSpares(s, e, answer, now, b);
      } else {
        WaitsForTurn(q, tried, world, now, k - 1, k - 1);
        assert TurnOf(q, tried, b, k - 1);
        if k - 1 != w {
          SpentKeepsRunning(s, e, answer, now, tried[w]);
        } else {
          NotYetStays(s, e, now);
        }
      }
    }
  }

  lemma NotYetStays(s: Queue, e: nat, now: Time)
    requires Linked(s) && Waits(s, e) && BatchOf(s, e).state.BatchRunning?
    ensures Admit(s, e, NotYet, now) == s
  {
  }

  /** No entry changes its batch, or its place in queue order. */
  lemma InItsBatch(q: Queue, tried: seq<nat>, world: World, now: Time, k: nat, m: nat)
    requires Sound(q) && InOrder(q, tried) && k < |tried| && m < |tried|
    ensures var s := At(q, tried, world, now, k);
            && tried[k] < |q.entries| == |s.entries| && tried[m] < |q.entries|
            && s.entries[tried[k]].batch == q.entries[tried[k]].batch
            && s.entries[tried[m]].batch == q.entries[tried[m]].batch
  {
    AtFollows(q, tried, world, now, k);
    hide At, Sound;
    assert Waits(q, tried[k]) && Waits(q, tried[m]);
    var s := At(q, tried, world, now, k);
    assert SameKey(q.entries[tried[k]], s.entries[tried[k]]) && SameKey(q.entries[tried[m]], s.entries[tried[m]]);
  }

  lemma OtherTurnSpares(s: Queue, e: nat, answer: Answer, now: Time, b: nat)
    requires Sound(s) && e < |s.entries| && s.entries[e].batch != b && b < |s.batches|
    ensures var r := Admit(s, e, answer, now);
            && |r.batches| == |s.batches| && |r.entries| == |s.entries| && r.batches[b] == s.batches[b]
            && forall i | 0 <= i < |s.entries| && s.entries[i].batch == b :: r.entries[i] == s.entries[i]
  {
    if Waits(s, e) && BatchOf(s, e).state.BatchRunning? {
      AdmitOnlyIn(s, e, answer, now);
    } else if Waits(s, e) {
      NextOnlyIn(s, Decline(e, now));
    }
    hide Next, RowSound, Fits, BatchSound;
  }

  lemma StrandedIf(q: Queue, tried: seq<nat>, world: World, now: Time, r: Queue, b: nat)
    requires Drained(q, tried, world, now, r)
    requires Runs(q, b) && !Alive(q, b) && ToldOnlyToWait(q, tried, world, now, b)
    ensures Stranded(r, b)
  {
    var w: nat :| TurnOf(q, tried, b, w) && Told(q, tried, world, now, w).NotYet?;
    StillRuns(q, tried, world, now, b, w, |tried|);
    AtEnds(q, tried, world, now);
    PassFacts(q, tried, world, now, r, b);
    NothingComesAlive(q, tried, world, now, r, b);
    hide Drained, Told, AdmitAll, At, Spent, ToldOnlyToWait, Leaves, Alive;
  }

  lemma NothingComesAlive(q: Queue, tried: seq<nat>, world: World, now: Time, r: Queue, b: nat)
    requires Drained(q, tried, world, now, r) && b < |q.batches| && Runs(r, b)
    requires !Alive(q, b) && ToldOnlyToWait(q, tried, world, now, b)
    ensures !Alive(r, b)
  {
    PassFacts(q, tried, world, now, r, b);
    hide Drained, Told, AdmitAll, At, Spent, ToldOnlyToWait, Leaves;
    forall f: nat | f < |r.entries| && r.entries[f].batch == b
      ensures !(r.entries[f].state.Starting? || r.entries[f].state.Running? || r.entries[f].state.NeedsReask?)
    {
      if f in tried {
        var k: nat :| k < |tried| && tried[k] == f;
        assert TurnOf(q, tried, b, k);
        SpentIsOver(q, tried, world, now, r, b, k);
      }
    }
  }

  lemma SpentIsOver(q: Queue, tried: seq<nat>, world: World, now: Time, r: Queue, b: nat, k: nat)
    requires Linked(q) && TurnOf(q, tried, b, k) && tried[k] < |r.entries| && ToldOnlyToWait(q, tried, world, now, b)
    requires Leaves(r, tried[k], Told(q, tried, world, now, k))
    ensures r.entries[tried[k]].state.Queued? || Settled(r.entries[tried[k]].state)
  {
    hide Told, Settled;
    assert Spent(Told(q, tried, world, now, k));
  }

  lemma StrandedIsListed(q: Queue, tried: seq<nat>, world: World, now: Time, r: Queue, b: nat)
    requires Drained(q, tried, world, now, r) && Stranded(r, b)
    ensures b < |q.batches|
  {
    AtEnds(q, tried, world, now);
    AtFollows(q, tried, world, now, |tried|);
    hide AdmitAll, RowSound, Fits, BatchSound, InOrder, HeldBack, Distinct, Alive;
    var e: nat :| Waits(r, e) && r.entries[e].batch == b;
    assert SameKey(q.entries[e], r.entries[e]);
  }

  /**
   * A finished pass leaves a batch stranded exactly when it ran, nothing of it was alive, each of its turns was told to
   * wait or came to nothing at once, and at least one was told to wait.
   */
  lemma StrandedIff(q: Queue, tried: seq<nat>, world: World, now: Time, r: Queue, b: nat)
    requires Drained(q, tried, world, now, r)
    ensures Stranded(r, b) <==> Runs(q, b) && !Alive(q, b) && ToldOnlyToWait(q, tried, world, now, b)
  {
    if Stranded(r, b) {
      StrandedIsListed(q, tried, world, now, r, b);
    }
    hide Stranded, Alive, ToldOnlyToWait, AdmitAll, HeldBack;
    if Stranded(r, b) {
      StrandedOnlyIf(q, tried, world, now, r, b);
    }
    if Runs(q, b) && !Alive(q, b) && ToldOnlyToWait(q, tried, world, now, b) {
      StrandedIf(q, tried, world, now, r, b);
    }
  }

  // ----- need order strands nobody

  lemma {:induction false} FirstToWait(q: Queue, tried: seq<nat>, world: World, now: Time, b: nat, w: nat)
      returns (m: nat)
    requires Linked(q) && TurnOf(q, tried, b, w) && Told(q, tried, world, now, w).NotYet?
    ensures TurnOf(q, tried, b, m) && Told(q, tried, world, now, m).NotYet?
    ensures forall j: nat | j < m && TurnOf(q, tried, b, j) :: !Told(q, tried, world, now, j).NotYet?
  {
    m := w;
    if j: nat :| j < w && TurnOf(q, tried, b, j) && Told(q, tried, world, now, j).NotYet? {
      m := FirstToWait(q, tried, world, now, b, j);
    }
  }

  /** What a turn is told to wait for stood before it, and is not over. */
  lemma WaitsForEarlier(q: Queue, tried: seq<nat>, inputs: Wiring, decide: Deciding, now: Time, b: nat, needs: Relation,
      k: nat) returns (f: nat)
    requires Sound(q) && InOrder(q, tried) && TurnOf(q, tried, b, k)
    requires InNeedOrder(q, b, needs) && WiredAsNeeded(q, tried, inputs, decide, now, b, needs)
    requires Told(q, tried, Ask(inputs, decide), now, k).NotYet?
    ensures f < |q.entries| && q.entries[f].batch == b && f !in tried[k..]
    ensures var s := At(q, tried, Ask(inputs, decide), now, k);
            |s.entries| == |q.entries| && !Settled(s.entries[f].state)
  {
    var e, s := tried[k], At(q, tried, Ask(inputs, decide), now, k);
    AtFollows(q, tried, Ask(inputs, decide), now, k);
    f := ToldToWait(s, e, inputs(s, e), decide(s, e));
    hide AdmitAll, Ask, RowSound, BatchSound, Fits, Settled;
    assert SameKey(q.entries[e], s.entries[e]) && SameKey(q.entries[f], s.entries[f]);
    assert !Before(q.entries[e], q.entries[f]);
    BehindIsPast(q, tried, k, f);
  }

  /** In a stranded batch, whoever had no turn since the first was told to wait is over. */
  lemma EarlierIsOver(q: Queue, tried: seq<nat>, world: World, now: Time, r: Queue, b: nat, m: nat, f: nat)
    requires Drained(q, tried, world, now, r) && b < |q.batches| && Stranded(r, b) && TurnOf(q, tried, b, m)
    requires ToldOnlyToWait(q, tried, world, now, b)
    requires forall j: nat | j < m && TurnOf(q, tried, b, j) :: !Told(q, tried, world, now, j).NotYet?
    requires f < |q.entries| && q.entries[f].batch == b && f !in tried[m..]
    ensures |r.entries| == |q.entries| && Settled(r.entries[f].state)
  {
    PassFacts(q, tried, world, now, r, b);
    if f in tried {
      TriedBefore(tried, m, f);
      hide Drained, Told, Stranded, Settled;
      var j: nat :| j < m && tried[j] == f;
      assert TurnOf(q, tried, b, j) && Leaves(r, f, Told(q, tried, world, now, j));
    } else {
      UntriedIsOver(q, tried, world, now, r, b, f);
    }
  }

  lemma UntriedIsOver(q: Queue, tried: seq<nat>, world: World, now: Time, r: Queue, b: nat, f: nat)
    requires Drained(q, tried, world, now, r) && Stranded(r, b) && f !in tried && f < |r.entries|
        && r.entries[f].batch == b
    ensures Settled(r.entries[f].state)
  {
    AtEnds(q, tried, world, now);
    AtFollows(q, tried, world, now, |tried|);
    hide AdmitAll, At, RowSound, Fits, BatchSound, InOrder, HeldBack, Distinct, Settled, Alive;
    if !Settled(r.entries[f].state) {
      UnsettledIsAliveOrWaits(r, f);
    }
  }

  lemma TriedBefore(tried: seq<nat>, k: nat, f: nat)
    requires k <= |tried| && f in tried && f !in tried[k..]
    ensures exists j: nat :: j < k && tried[j] == f
  {
    assert tried == tried[..k] + tried[k..];
  }

  lemma SameUntilTheEnd(q: Queue, tried: seq<nat>, world: World, now: Time, r: Queue, b: nat, m: nat, f: nat)
    requires Drained(q, tried, world, now, r) && Runs(r, b) && m <= |tried| && f !in tried[m..]
    requires f < |q.entries| && q.entries[f].batch == b
    ensures var s := At(q, tried, world, now, m);
            |s.entries| == |r.entries| == |q.entries| && s.entries[f].state == r.entries[f].state
  {
    AtEnds(q, tried, world, now);
    AtFollows(q, tried, world, now, m);
    AtFollows(q, tried, world, now, |tried|);
    PastTurnStays(q, tried, world, now, m, f);
    hide AdmitAll, RowSound, Fits, BatchSound, InOrder, HeldBack, Distinct;
    assert SameKey(q.entries[f], r.entries[f]);
  }

  lemma UnsettledIsAliveOrWaits(r: Queue, f: nat)
    requires Sound(r) && f < |r.entries| && Runs(r, r.entries[f].batch) && !Settled(r.entries[f].state)
    ensures Waits(r, f) || Alive(r, r.entries[f].batch)
  {
    UnsettledInRunning(r, f);
  }

  /**
   * When a drain ends with a slot to spare, no entry of a running batch waits unless something of that batch is
   * starting, running or re-asking: a producer that failed, was cancelled or was abandoned leaves nobody waiting on it.
   */
  lemma NobodyStranded(q: Queue, tried: seq<nat>, inputs: Wiring, decide: Deciding, now: Time, r: Queue, b: nat,
      needs: Relation)
    requires Drained(q, tried, Ask(inputs, decide), now, r)
    requires InNeedOrder(q, b, needs) && WiredAsNeeded(q, tried, inputs, decide, now, b, needs)
    ensures !Stranded(r, b)
  {
    if Stranded(r, b) {
      var world := Ask(inputs, decide);
      StrandedIff(q, tried, world, now, r, b);
      var w: nat :| TurnOf(q, tried, b, w) && Told(q, tried, world, now, w).NotYet?;
      var m := FirstToWait(q, tried, world, now, b, w);
      var f := WaitsForEarlier(q, tried, inputs, decide, now, b, needs, m);
      hide At, Told, Ask, InNeedOrder, WiredAsNeeded, ToldOnlyToWait;
      EarlierIsOver(q, tried, world, now, r, b, m, f);
      SameUntilTheEnd(q, tried, world, now, r, b, m, f);
      assert false;
    }
  }

  // ----- a batch wired anew while it waits

  /** Three commands enqueued in the order 10, 11, 12, the last of them called off since. */
  function CalledOff(now: Time): Queue {
    Queue([Batch(1, BatchRunning, None, None)],
          [Entry(0, 0, 10, 1, Queued, 0, None, None, None, now, None, None),
           Entry(1, 0, 11, 2, Queued, 0, None, None, None, now, None, None),
           Entry(2, 0, 12, 3, Cancelled, 0, None, None, Some("cancelled before it started"), now, None, Some(now))])
  }

  /** Wired since then so that 10 takes an input of 11, and 11 one of 12. */
  function RewiredInputs(): Wiring {
    (q: Queue, e: nat) => if e == 0 then [Consumed(11, false)] else if e == 1 then [Consumed(12, false)] else []
  }

  ghost function LeftBehind(now: Time): Queue {
    var q := CalledOff(now);
    q.(entries := q.entries[1 := q.entries[1].(state := Cancelled, detail := Some(ABANDONED), settledAt := Some(now))])
  }

  lemma FirstTold(now: Time, decide: Deciding)
    ensures Ask(RewiredInputs(), decide)(CalledOff(now), 0).NotYet?
  {
    var q := CalledOff(now);
    assert SiblingStates(q, 0, 1) == map[];
    assert SiblingStates(q, 0, 2) == map[11 := Queued];
    var states := SiblingStates(q, 0, 3);
    assert states == map[11 := Queued, 12 := Cancelled];
    var input := Consumed(11, false);
    StandingIff(states, [input]);
    hide SiblingStates, StandingOf;
    assert input in [input] && IsPending(states, input);
    assert RewiredInputs()(q, 0) == [input];
  }

  lemma SecondTold(now: Time, decide: Deciding)
    ensures Ask(RewiredInputs(), decide)(CalledOff(now), 1) == Abandoned(ABANDONED)
  {
    var q := CalledOff(now);
    assert SiblingStates(q, 1, 1) == map[10 := Queued];
    assert SiblingStates(q, 1, 2) == map[10 := Queued];
    var states := SiblingStates(q, 1, 3);
    assert states == map[10 := Queued, 12 := Cancelled];
    var input := Consumed(12, false);
    StandingIff(states, [input]);
    hide SiblingStates, StandingOf;
    assert input in [input] && IsDead(states, input);
    assert RewiredInputs()(q, 1) == [input];
  }

  lemma CalledOffSound(now: Time)
    ensures Sound(CalledOff(now)) && Waits(CalledOff(now), 0) && Waits(CalledOff(now), 1)
  {
  }

  lemma AbandonStrands(now: Time)
    ensures Linked(CalledOff(now)) && Admit(CalledOff(now), 0, NotYet, now) == CalledOff(now)
    ensures Admit(CalledOff(now), 1, Abandoned(ABANDONED), now) == LeftBehind(now)
  {
    var q := CalledOff(now);
    var settled := Settle(q, 1, Cancelled, Some(ABANDONED), now);
    assert settled == LeftBehind(now);
    assert settled.entries[0].batch == 0 && Outstanding(settled.entries[0].state);
    assert SettleBatchIfFinished(settled, 0, now) == settled;
    assert Taken(q, Abandon(1, ABANDONED, now));
    assert Next(q, Abandon(1, ABANDONED, now)) == settled;
  }

  lemma PassStrands(now: Time, decide: Deciding)
    ensures var q, world := CalledOff(now), Ask(RewiredInputs(), decide);
            Linked(q) && AdmitAll(q, [0], world, now) == q && AdmitAll(q, [0, 1], world, now) == LeftBehind(now)
  {
    var q, world := CalledOff(now), Ask(RewiredInputs(), decide);
    AbandonStrands(now);
    FirstTold(now, decide);
    SecondTold(now, decide);
    hide CalledOff, LeftBehind, Admit, Ask, RewiredInputs;
    assert [0][..0] == [] && [0, 1][..1] == [0];
    assert AdmitAll(q, [], world, now) == q;
    assert AdmitAll(q, [0], world, now) == q;
  }

  lemma LeftBehindIsStranded(now: Time)
    ensures Stranded(LeftBehind(now), 0)
    ensures forall e: nat | Waits(LeftBehind(now), e) :: e == 0
  {
    assert Waits(LeftBehind(now), 0);
  }

  /**
   * Without need order a drain can strand an entry, needs without a cycle notwithstanding: it is told to wait for one
   * that is abandoned later in the same pass, and nothing of its batch is left to wake the queue.
   */
  lemma OutOfOrderStrands(now: Time, decide: Deciding)
    ensures Acyclic({(10, 11), (11, 12)}) && Run(EMPTY, CallOffLast(now)) == CalledOff(now)
    ensures var q, r, world := CalledOff(now), LeftBehind(now), Ask(RewiredInputs(), decide);
            && Drained(q, [0, 1], world, now, r) && Stranded(r, 0)
            && WiredAsNeeded(q, [0, 1], RewiredInputs(), decide, now, 0, {(10, 11), (11, 12)})
  {
    ChainIsAcyclic();
    CalledOffIsReached(now);
    LeftBehindIsDrained(now, decide);
    LeftBehindIsStranded(now);
    RewiredInTurn(now, decide);
    hide CalledOff, LeftBehind, Ask, Stranded, Drained, WiredAsNeeded, CallOffLast, Run, Acyclic;
  }

  function CallOffLast(now: Time): seq<Step> {
    [Initiate(1, [Item(10, 1, 0, None), Item(11, 2, 0, None), Item(12, 3, 0, None)], now), Cancel(2, now)]
  }

  lemma CalledOffIsReached(now: Time)
    ensures Run(EMPTY, CallOffLast(now)) == CalledOff(now)
  {
    var items, steps := [Item(10, 1, 0, None), Item(11, 2, 0, None), Item(12, 3, 0, None)], CallOffLast(now);
    var rows := [NewEntry(0, 0, items[0], now), NewEntry(1, 0, items[1], now), NewEntry(2, 0, items[2], now)];
    var begun := Queue([Batch(1, BatchRunning, None, None)], rows);
    assert Next(EMPTY, steps[0]) == begun by {
      assert !KeyUsed(EMPTY, 1);
      assert EnqueueAll([], 0, items, now) == rows;
    }
    var settled := Settle(begun, 2, Cancelled, Some("cancelled before it started"), now);
    assert settled.entries[0].batch == 0 && Outstanding(settled.entries[0].state);
    assert Next(begun, steps[1]) == settled;
    assert settled == CalledOff(now);
    hide Next, CalledOff;
    assert steps[1..][1..] == [];
    assert Run(EMPTY, steps) == Run(begun, steps[1..]) == Run(settled, []);
  }

  lemma LeftBehindIsDrained(now: Time, decide: Deciding)
    ensures Drained(CalledOff(now), [0, 1], Ask(RewiredInputs(), decide), now, LeftBehind(now))
  {
    CalledOffSound(now);
    PassStrands(now, decide);
    LeftBehindIsStranded(now);
    TriedInOrder(now);
    TheFirstIsHeldBack(now, decide);
    hide CalledOff, LeftBehind, AdmitAll, Ask, Sound, RewiredInputs, Alive, Stranded, HeldBack, InOrder, Linked;
  }

  lemma TriedInOrder(now: Time)
    ensures InOrder(CalledOff(now), [0, 1])
  {
    var q := CalledOff(now);
    assert Before(q.entries[0], q.entries[1]);
  }

  lemma TheFirstIsHeldBack(now: Time, decide: Deciding)
    ensures Linked(CalledOff(now))
    ensures HeldBack(CalledOff(now), [0, 1], Ask(RewiredInputs(), decide), now, LeftBehind(now))
  {
    PassStrands(now, decide);
    LeftBehindIsStranded(now);
    FirstTold(now, decide);
    hide CalledOff, LeftBehind, Ask, RewiredInputs, Alive, Stranded;
    assert [0, 1][..0] == [];
    assert AdmitAll(CalledOff(now), [], Ask(RewiredInputs(), decide), now) == CalledOff(now);
  }

  lemma RewiredInTurn(now: Time, decide: Deciding)
    ensures Linked(CalledOff(now))
    ensures WiredAsNeeded(CalledOff(now), [0, 1], RewiredInputs(), decide, now, 0, {(10, 11), (11, 12)})
  {
    var q := CalledOff(now);
    assert Linked(q) && |q.entries| == 3 && q.entries[0].command == 10 && q.entries[1].command == 11;
    hide CalledOff, AdmitAll, Ask, Linked;
  }

  lemma ChainIsAcyclic()
    ensures Acyclic({(10, 11), (11, 12)})
  {
    var needs := {(10, 11), (11, 12)};
    assert ProducersFirst(needs, [12, 11, 10]);
    OrderedIsAcyclic(needs, [12, 11, 10]);
    assert Among(needs, [12, 11, 10]) == needs;
  }
}
