/** One pass of admission over the waiting entries (apps/server/src/runs/queue.ts, drain and admit). */
module Admission {
  import opened Wrappers
  import opened Sorting
  import opened RunQueue
  import opened QueueRuns
  import opened QueueOrder

  /**
   * What admission finds out about an entry of a running batch: its producers' standing, its contract, and how its
   * start went.
   */
  datatype Answer =
    | NotYet
    | Abandoned(detail: string)
    | Drifted(detail: string)
    | Refused(message: string)
    | Launched(run: nat, session: nat, ended: Option<End>)

  ghost function Admit(q: Queue, e: nat, answer: Answer, now: Time): (r: Queue)
    requires Linked(q)
    ensures Linked(r)
  {
    hide Next, Linked;
    NextLinked(q, Decline(e, now));
    NextLinked(q, Start(e, now));
    if !Waits(q, e) then q
    else if !BatchOf(q, e).state.BatchRunning? then Next(q, Decline(e, now))
    else
      match answer
      case NotYet => q
      case Abandoned(detail) => NextLinked(q, Abandon(e, detail, now)); Next(q, Abandon(e, detail, now))
      case Drifted(detail) => NextLinked(q, Reask(e, detail)); Next(q, Reask(e, detail))
      case Refused(message) =>
        var started := Next(q, Start(e, now));
        NextLinked(started, Refuse(e, message, now));
        Next(started, Refuse(e, message, now))
      case Launched(run, session, ended) =>
        var started := Next(q, Start(e, now));
        NextLinked(started, Bind(e, run, session, ended, now));
        Next(started, Bind(e, run, session, ended, now))
  }

  /** Everything outside the queue that admission asks, as it stands when an entry's turn comes. */
  type World = (Queue, nat) -> Answer

  ghost function AdmitAll(q: Queue, ids: seq<nat>, world: World, now: Time): (r: Queue)
    requires Linked(q)
    ensures Linked(r)
    decreases |ids|
  {
    if ids == [] then q
    else
      var before := AdmitAll(q, ids[..|ids| - 1], world, now);
      Admit(before, ids[|ids| - 1], world(before, ids[|ids| - 1]), now)
  }

  // ----- admission only ever takes entries out of the queue

  /** The steps that put nothing back. */
  ghost predicate Admitting(step: Step) {
    step.Decline? || step.Abandon? || step.Reask? || step.Start? || step.Refuse? || step.Bind?
  }

  ghost predicate NothingRequeued(q: Queue, r: Queue) {
    |r.entries| == |q.entries| && forall i | 0 <= i < |q.entries| && r.entries[i].state.Queued? ::
        q.entries[i].state.Queued?
  }

  lemma EndRequeuesNothing(q: Queue, e: nat, end: End, now: Time)
    requires e < |q.entries| && q.entries[e].batch < |q.batches|
    ensures NothingRequeued(q, SettleEntryFor(q, e, end, now))
        && !SettleEntryFor(q, e, end, now).entries[e].state.Queued?
  {
    hide KeysKept, OutcomeOf, DetailOf, PauseReason, HasOutstanding, Linked;
    var settled := Settle(q, e, OutcomeOf(end), Some(DetailOf(end)), now);
    assert NothingRequeued(q, settled) && Settled(settled.entries[e].state);
  }

  lemma StepRequeuesNothing(q: Queue, step: Step)
    requires Sound(q) && Taken(q, step) && Admitting(step)
    ensures NothingRequeued(q, Next(q, step)) && !Waits(Next(q, step), step.entry)
  {
    hide KeysKept, RowSound, Fits, BatchSound;
    hide SettleEntryFor;
    match step
    case Bind(e, run, session, ended, now) =>
      if ended.Some? {
        EndRequeuesNothing(MarkRunning(q, e, run, session), e, ended.value, now);
      }
    case _ =>
  }

  /**
   * Admission leaves every other queued entry where it was or takes it out; it keeps its own entry only when told its
   * turn has not come.
   */
  lemma AdmitTakesOut(q: Queue, e: nat, answer: Answer, now: Time)
    requires Sound(q)
    ensures var r := Admit(q, e, answer, now); Follows(q, r) && NothingRequeued(q, r)
    ensures Waits(Admit(q, e, answer, now), e) ==> answer.NotYet?
  {
    hide Next, RowSound, Fits, BatchSound, Evolves;
    if Waits(q, e) {
      var step := if !BatchOf(q, e).state.BatchRunning? then Decline(e, now) else
        match answer
        case NotYet => FinishResume(0, now)
        case Abandoned(detail) => Abandon(e, detail, now)
        case Drifted(detail) => Reask(e, detail)
        case _ => Start(e, now);
      if step.FinishResume? {
        FollowsItself(q);
      } else {
        NextFollows(q, step);
        StepRequeuesNothing(q, step);
        if step.Start? {
          var started := Next(q, step);
          StartStarts(q, e, now);
          var second := if answer.Refused? then Refuse(e, answer.message, now)
              else Bind(e, answer.run, answer.session, answer.ended, now);
          NextFollows(started, second);
          StepRequeuesNothing(started, second);
          FollowsOn(q, started, Next(started, second));
        }
      }
    } else {
      FollowsItself(q);
    }
  }

  lemma StartStarts(q: Queue, e: nat, now: Time)
    requires Linked(q) && Admissible(q, e)
    ensures |Next(q, Start(e, now)).entries| == |q.entries| && Next(q, Start(e, now)).entries[e].state.Starting?
  {
  }

  lemma StartsWhenAdmissible(q: Queue, e: nat, now: Time)
    requires Linked(q)
    ensures Admissible(q, e) ==>
        Next(q, Start(e, now)) == MarkStarting(q, e, now) && MarkStarting(q, e, now).entries[e].state.Starting?
    ensures forall detail | Admissible(q, e) :: Next(q, Reask(e, detail)) == MarkNeedsReask(q, e, detail)
  {
  }

  // ----- a pass in order

  /** The entries tried, in the order tried, are in queue order. */
  ghost predicate InOrder(q: Queue, tried: seq<nat>) {
    && (forall k | 0 <= k < |tried| :: Waits(q, tried[k]))
    && (forall k, m | 0 <= k < m < |tried| :: Before(q.entries[tried[k]], q.entries[tried[m]]))
  }

  /** Nothing still to be tried comes before anything already tried. */
  ghost predicate Overtaken(q: Queue, tried: seq<nat>, r: Queue) {
    |r.entries| == |q.entries| && forall k, e: nat | 0 <= k < |tried| && tried[k] < |q.entries| && Waits(r, e)
        && e !in tried :: Before(q.entries[tried[k]], q.entries[e])
  }

  /** An entry that was tried and still waits was told, when its turn came, that it is not its turn yet. */
  ghost predicate HeldBack(q: Queue, tried: seq<nat>, world: World, now: Time, r: Queue)
    requires Linked(q)
  {
    forall k | 0 <= k < |tried| && Waits(r, tried[k]) :: world(AdmitAll(q, tried[..k], world, now), tried[k]).NotYet?
  }

  /** A pass so far: where it has brought the queue, in what order, and what it passed over. */
  ghost predicate Pass(q: Queue, tried: seq<nat>, world: World, now: Time, r: Queue) {
    && Sound(q) && r == AdmitAll(q, tried, world, now) && Follows(q, r) && NothingRequeued(q, r)
    && Distinct(tried) && InOrder(q, tried) && Overtaken(q, tried, r) && HeldBack(q, tried, world, now, r)
  }

  lemma PassBegins(q: Queue, world: World, now: Time)
    requires Sound(q)
    ensures Pass(q, [], world, now, q)
  {
    FollowsItself(q);
  }

  lemma PassGoesOn(q: Queue, tried: seq<nat>, world: World, now: Time, r: Queue, next: nat)
    requires Pass(q, tried, world, now, r) && Waits(r, next) && next !in tried
    requires forall e: nat | Waits(r, e) && e !in tried :: Before(r.entries[next], r.entries[e])
    ensures Pass(q, tried + [next], world, now, Admit(r, next, world(r, next), now))
    ensures |tried| < |q.entries|
  {
    var answer := world(r, next);
    var s := Admit(r, next, answer, now);
    AdmitTakesOut(r, next, answer, now);
    FollowsOn(q, r, s);
    hide Admit, RowSound, Fits, BatchSound;
    assert (tried + [next])[..|tried|] == tried;
    assert AdmitAll(q, tried + [next], world, now) == s;
    DistinctAppend(tried, next);
    assert forall e | 0 <= e < |q.entries| :: Evolves(q.entries[e], r.entries[e]);
    OrderGoesOn(q, tried, r, next);
    HeldBackGoesOn(q, tried, world, now, r, next, s);
    RoomLeft(tried + [next], |q.entries|);
    OvertakenGoesOn(q, tried, r, s, next);
  }

  lemma OrderGoesOn(q: Queue, tried: seq<nat>, r: Queue, next: nat)
    requires InOrder(q, tried) && Overtaken(q, tried, r) && NothingRequeued(q, r) && Waits(r, next) && next !in tried
    ensures InOrder(q, tried + [next])
  {
  }

  lemma OvertakenGoesOn(q: Queue, tried: seq<nat>, r: Queue, s: Queue, next: nat)
    requires InOrder(q, tried) && Overtaken(q, tried, r) && NothingRequeued(r, s) && Waits(r, next)
    requires |r.entries| == |q.entries| && forall e | 0 <= e < |q.entries| :: SameKey(q.entries[e], r.entries[e])
    requires forall e: nat | Waits(r, e) && e !in tried :: Before(r.entries[next], r.entries[e])
    ensures Overtaken(q, tried + [next], s)
  {
    var all := tried + [next];
    forall k, e: nat | 0 <= k < |all| && all[k] < |q.entries| && Waits(s, e) && e !in all
      ensures Before(q.entries[all[k]], q.entries[e])
    {
      assert Waits(r, e) && e !in tried;
      assert SameKey(q.entries[e], r.entries[e]) && SameKey(q.entries[next], r.entries[next]);
    }
  }

  lemma HeldBackGoesOn(q: Queue, tried: seq<nat>, world: World, now: Time, r: Queue, next: nat, s: Queue)
    requires Linked(q) && r == AdmitAll(q, tried, world, now) && HeldBack(q, tried, world, now, r)
        && NothingRequeued(r, s)
    requires Waits(s, next) ==> world(r, next).NotYet?
    ensures HeldBack(q, tried + [next], world, now, s)
  {
    var all := tried + [next];
    forall k | 0 <= k < |all| && Waits(s, all[k])
      ensures world(AdmitAll(q, all[..k], world, now), all[k]).NotYet?
    {
      assert all[..k] == tried[..k];
      if k == |tried| {
        assert tried[..k] == tried;
      }
    }
  }

  lemma RoomLeft(ids: seq<nat>, n: nat)
    requires Distinct(ids) && forall k | 0 <= k < |ids| :: ids[k] < n
    ensures |ids| <= n
  {
    var all := seq(n, i => i);
    DistinctSize(ids);
    DistinctSize(all);
    assert forall k | 0 <= k < |ids| :: all[ids[k]] == ids[k];
    SubsetSize(Members(ids), Members(all));
  }
}
