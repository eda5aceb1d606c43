/**
 * What other callers do to the queue while an entry's start is awaited, and passes of admission amid all that
 * (apps/server/src/runs/queue.ts, drain and admit).
 */
module Arrivals {
  import opened Sorting
  import opened RunQueue
  import opened QueueRuns
  import opened QueueOrder
  import opened Admission
  import opened BatchStanding
  import opened Stranding
  import opened Foresight

  /** The steps other callers take; admission itself is the drain's alone, and recovery is over before it begins. */
  predicate MayCome(step: Step) {
    step.Initiate? || step.Cancel? || step.Confirm? || step.Resume? || step.FinishResume? || step.SessionEnded?
  }

  type Coming = step: Step | MayCome(step) witness Resume(0)

  datatype Arrival = Gesture(step: Coming) | DrainCall | Shutdown

  /** One entry's turn, and what arrived while its start was awaited. */
  datatype Turn = Turn(entry: nat, meanwhile: seq<Arrival>)

  predicate Undisturbed(meanwhile: seq<Arrival>) {
    forall a | a in meanwhile :: !a.Gesture?
  }

  predicate Called(turns: seq<Turn>) {
    exists t | t in turns :: DrainCall in t.meanwhile
  }

  predicate Quiet(turns: seq<Turn>) {
    forall t | t in turns :: Undisturbed(t.meanwhile)
  }

  function Entries(turns: seq<Turn>): (ids: seq<nat>)
    ensures |ids| == |turns| && forall i | 0 <= i < |turns| :: ids[i] == turns[i].entry
  {
    seq(|turns|, i requires 0 <= i < |turns| => turns[i].entry)
  }

  ghost function Arrive(q: Queue, arrivals: seq<Arrival>): (r: Queue)
    requires Linked(q)
    ensures Linked(r)
    decreases |arrivals|
  {
    if arrivals == [] then q
    else
      var before, a := Arrive(q, arrivals[..|arrivals| - 1]), arrivals[|arrivals| - 1];
      if a.Gesture? then
        NextLinked(before, a.step);
        Next(before, a.step)
      else before
  }

  predicate Starts(answer: Answer) {
    answer.Refused? || answer.Launched?
  }

  /** One turn, with arrivals between the start and its outcome. */
  ghost function AdmitAmid(q: Queue, e: nat, answer: Answer, meanwhile: seq<Arrival>, now: Time): (r: Queue)
    requires Linked(q)
    ensures Linked(r)
  {
    if Waits(q, e) && BatchOf(q, e).state.BatchRunning? && Starts(answer) then
      NextLinked(q, Start(e, now));
      var amid := Arrive(Next(q, Start(e, now)), meanwhile);
      NextLinked(amid, Outcome(e, answer, now));
      Next(amid, Outcome(e, answer, now))
    else Admit(q, e, answer, now)
  }

  predicate EndsAtOnce(answer: Answer) {
    answer.Launched? && answer.ended.Some?
  }

  /** A turn hears what arrives only if it starts its entry, and a session already over calls for a drain as well. */
  ghost function Heard(q: Queue, e: nat, answer: Answer, group: seq<Arrival>): seq<Arrival>
    requires Linked(q)
  {
    if !(Waits(q, e) && BatchOf(q, e).state.BatchRunning? && Starts(answer)) then []
    else if EndsAtOnce(answer) then group + [DrainCall] else group
  }

  function Outcome(e: nat, answer: Answer, now: Time): Step
    requires Starts(answer)
  {
    if answer.Refused? then Refuse(e, answer.message, now) else Bind(e, answer.run, answer.session, answer.ended, now)
  }

  ghost function PassFrom(q: Queue, turns: seq<Turn>, world: World, now: Time): (r: Queue)
    requires Linked(q)
    ensures Linked(r)
    decreases |turns|
  {
    if turns == [] then q
    else
      var before, t := PassFrom(q, turns[..|turns| - 1], world, now), turns[|turns| - 1];
      AdmitAmid(before, t.entry, world(before, t.entry), t.meanwhile, now)
  }

  ghost function PassesFrom(q: Queue, passes: seq<seq<Turn>>, world: World, now: Time): (r: Queue)
    requires Linked(q)
    ensures Linked(r)
    decreases |passes|
  {
    if passes == [] then q
    else PassFrom(PassesFrom(q, passes[..|passes| - 1], world, now), passes[|passes| - 1], world, now)
  }

  // ----- what arrivals leave alone

  /** An entry being started stays so, whoever else comes by. */
  lemma ComingSparesStart(q: Queue, step: Coming, e: nat)
    requires Sound(q) && e < |q.entries| && q.entries[e].state.Starting?
    ensures var r := Next(q, step); e < |r.entries| && r.entries[e] == q.entries[e]
  {
    if !Taken(q, step) {
      NotTakenStays(q, step);
    } else if step.SessionEnded? {
      assert RowSound(q.entries[e]);
      hide KeysKept, RowSound, Fits, BatchSound, SettleEntryFor;
      EndSparesStart(q, step.entry, step.end, step.now, e);
    } else {
      GestureSparesStart(q, step, e);
    }
  }

  lemma GestureSparesStart(q: Queue, step: Coming, e: nat)
    requires Linked(q) && Taken(q, step) && !step.SessionEnded? && e < |q.entries| && q.entries[e].state.Starting?
    ensures var r := Next(q, step); e < |r.entries| && r.entries[e] == q.entries[e]
  {
    hide KeysKept, KeyUsed, HasOutstanding;
  }

  lemma EndSparesStart(q: Queue, x: nat, end: End, now: Time, e: nat)
    requires Linked(q) && x < |q.entries| && e < |q.entries| && q.entries[e].state.Starting? && x != e
    ensures |SettleEntryFor(q, x, end, now).entries| == |q.entries|
    ensures SettleEntryFor(q, x, end, now).entries[e] == q.entries[e]
  {
    hide KeysKept, OutcomeOf, DetailOf, PauseReason, HasOutstanding;
  }

  lemma {:induction false} ArriveFollows(q: Queue, arrivals: seq<Arrival>)
    requires Sound(q)
    ensures Follows(q, Arrive(q, arrivals))
    ensures forall e: nat | e < |q.entries| && q.entries[e].state.Starting? ::
        e < |Arrive(q, arrivals).entries| && Arrive(q, arrivals).entries[e] == q.entries[e]
    decreases |arrivals|
  {
    if arrivals == [] {
      FollowsItself(q);
    } else {
      var before, a := Arrive(q, arrivals[..|arrivals| - 1]), arrivals[|arrivals| - 1];
      ArriveFollows(q, arrivals[..|arrivals| - 1]);
      hide Next, Evolves, RowSound, Fits, BatchSound;
      if a.Gesture? {
        NextFollows(before, a.step);
        FollowsOn(q, before, Next(before, a.step));
        forall e: nat | e < |q.entries| && q.entries[e].state.Starting?
          ensures e < |Next(before, a.step).entries| && Next(before, a.step).entries[e] == q.entries[e]
        {
          ComingSparesStart(before, a.step, e);
        }
      }
    }
  }

  lemma {:induction false} UndisturbedStays(q: Queue, arrivals: seq<Arrival>)
    requires Linked(q) && Undisturbed(arrivals)
    ensures Arrive(q, arrivals) == q
    decreases |arrivals|
  {
    if arrivals != [] {
      assert arrivals[|arrivals| - 1] in arrivals;
      UndisturbedStays(q, arrivals[..|arrivals| - 1]);
    }
  }

  lemma UndisturbedTurn(q: Queue, e: nat, answer: Answer, meanwhile: seq<Arrival>, now: Time)
    requires Linked(q) && Undisturbed(meanwhile)
    ensures AdmitAmid(q, e, answer, meanwhile, now) == Admit(q, e, answer, now)
  {
    if Waits(q, e) && BatchOf(q, e).state.BatchRunning? && Starts(answer) {
      NextLinked(q, Start(e, now));
      UndisturbedStays(Next(q, Start(e, now)), meanwhile);
    }
  }

  lemma AmidFollows(q: Queue, e: nat, answer: Answer, meanwhile: seq<Arrival>, now: Time)
    requires Sound(q)
    ensures Follows(q, AdmitAmid(q, e, answer, meanwhile, now))
  {
    hide Next, Evolves, RowSound, Fits, BatchSound;
    if Waits(q, e) && BatchOf(q, e).state.BatchRunning? && Starts(answer) {
      var started := Next(q, Start(e, now));
      NextFollows(q, Start(e, now));
      ArriveFollows(started, meanwhile);
      var amid := Arrive(started, meanwhile);
      NextFollows(amid, Outcome(e, answer, now));
      FollowsOn(q, started, amid);
      FollowsOn(q, amid, Next(amid, Outcome(e, answer, now)));
    } else {
      AdmitTakesOut(q, e, answer, now);
    }
  }

  /** A pass nobody disturbs is a pass of admission alone. */
  lemma {:induction false} QuietPass(q: Queue, turns: seq<Turn>, world: World, now: Time)
    requires Linked(q) && Quiet(turns)
    ensures PassFrom(q, turns, world, now) == AdmitAll(q, Entries(turns), world, now)
    decreases |turns|
  {
    if turns != [] {
      var front, t := turns[..|turns| - 1], turns[|turns| - 1];
      assert t in turns;
      QuietPass(q, front, world, now);
      assert Entries(turns)[..|turns| - 1] == Entries(front);
      var before := PassFrom(q, front, world, now);
      UndisturbedTurn(before, t.entry, world(before, t.entry), t.meanwhile, now);
    }
  }

  // ----- turn after turn

  lemma FirstComeOn(q: Queue, tried: seq<nat>, world: World, now: Time, r: Queue, next: nat)
    requires Sound(q) && r == AdmitAll(q, tried, world, now) && FirstCome(q, tried, world, now) && Waits(r, next)
    requires forall e: nat | Waits(r, e) && e !in tried :: Before(r.entries[next], r.entries[e])
    ensures FirstCome(q, tried + [next], world, now)
  {
    var all := tried + [next];
    AdmitAllFollows(q, tried, world, now);
    assert forall i | 0 <= i < |q.entries| :: Evolves(q.entries[i], r.entries[i]);
    hide AdmitAll, RowSound, Fits, BatchSound;
    forall k: nat, f: nat | k < |all| && Waits(At(q, all, world, now, k), f) && f !in all[..k]
      ensures all[k] < |q.entries| && f < |q.entries| && Before(q.entries[all[k]], q.entries[f])
    {
      assert all[..k] == tried[..k];
      if k == |tried| {
        assert tried[..k] == tried;
        assert SameKey(q.entries[next], r.entries[next]) && SameKey(q.entries[f], r.entries[f]);
      } else {
        assert At(q, all, world, now, k) == At(q, tried, world, now, k);
      }
    }
  }

  /** A pass that queues nothing and takes something out leaves fewer waiting. */
  lemma {:induction false} FewerQueued(xs: seq<Entry>, ys: seq<Entry>, k: nat)
    requires |xs| == |ys| && k <= |xs|
    requires forall i | 0 <= i < |xs| && ys[i].state.Queued? :: xs[i].state.Queued?
    ensures QueuedIn(ys[..k]) <= QueuedIn(xs[..k])
    ensures (exists i :: 0 <= i < k && xs[i].state.Queued? && !ys[i].state.Queued?) ==>
        QueuedIn(ys[..k]) < QueuedIn(xs[..k])
  {
    if k > 0 {
      assert xs[..k][..k - 1] == xs[..k - 1] && ys[..k][..k - 1] == ys[..k - 1];
      FewerQueued(xs, ys, k - 1);
    }
  }

  function QueuedIn(rows: seq<Entry>): nat {
    if rows == [] then 0
    else QueuedIn(rows[..|rows| - 1]) + if rows[|rows| - 1].state.Queued? then 1 else 0
  }

  /** Every session found over as soon as it was started called for a drain. */
  ghost predicate EndsHeard(q: Queue, turns: seq<Turn>, world: World, now: Time)
    requires Linked(q)
  {
    forall k: nat | k < |turns| ::
      var s, answer := At(q, Entries(turns), world, now, k), Told(q, Entries(turns), world, now, k);
      Waits(s, turns[k].entry) && BatchOf(s, turns[k].entry).state.BatchRunning? && EndsAtOnce(answer) ==>
        DrainCall in turns[k].meanwhile
  }

  /** Nobody whose turn heard anything waits on. */
  ghost predicate HearersLeft(turns: seq<Turn>, r: Queue) {
    forall k: nat | k < |turns| && turns[k].meanwhile != [] :: !Waits(r, turns[k].entry)
  }

  /** A pass so far, whatever arrived; and if no step of another caller did, the pass of admission it amounts to. */
  ghost predicate Passing(q: Queue, turns: seq<Turn>, world: World, now: Time, r: Queue) {
    && Sound(q) && r == PassFrom(q, turns, world, now) && Follows(q, r)
    && Distinct(Entries(turns)) && (forall k | 0 <= k < |turns| :: turns[k].entry < |r.entries|)
    && (Quiet(turns) ==>
          && Pass(q, Entries(turns), world, now, r) && FirstCome(q, Entries(turns), world, now)
          && EndsHeard(q, turns, world, now) && HearersLeft(turns, r))
  }

  lemma PassingBegins(q: Queue, world: World, now: Time)
    requires Sound(q)
    ensures Passing(q, [], world, now, q)
  {
    PassBegins(q, world, now);
    assert Entries([]) == [];
  }

  lemma OneTurnOn(turns: seq<Turn>, t: Turn)
    ensures Entries(turns + [t]) == Entries(turns) + [t.entry] && (turns + [t])[..|turns|] == turns
    ensures Quiet(turns + [t]) <==> Quiet(turns) && Undisturbed(t.meanwhile)
    ensures Called(turns + [t]) <==> Called(turns) || DrainCall in t.meanwhile
  {
    var all := turns + [t];
    assert forall x :: x in all <==> x in turns || x == t;
  }

  lemma EndsHeardOn(q: Queue, turns: seq<Turn>, world: World, now: Time, r: Queue, next: nat, group: seq<Arrival>)
    requires Linked(q) && r == AdmitAll(q, Entries(turns), world, now) && EndsHeard(q, turns, world, now)
    ensures EndsHeard(q, turns + [Turn(next, Heard(r, next, world(r, next), group))], world, now)
  {
    var tried, t := Entries(turns), Turn(next, Heard(r, next, world(r, next), group));
    var all := turns + [t];
    OneTurnOn(turns, t);
    AtEnds(q, tried, world, now);
    forall k: nat | k < |all|
      ensures At(q, Entries(all), world, now, k) == if k < |turns| then At(q, tried, world, now, k) else r
      ensures Told(q, Entries(all), world, now, k) == if k < |turns| then Told(q, tried, world, now, k)
          else world(r, next)
    {
      assert Entries(all)[..k] == tried[..k];
    }
    hide At, Told, AdmitAll, BatchOf;
  }

  lemma HearersLeave(turns: seq<Turn>, r: Queue, next: nat, answer: Answer, group: seq<Arrival>, now: Time)
    requires Sound(r) && Waits(r, next) && HearersLeft(turns, r)
    ensures HearersLeft(turns + [Turn(next, Heard(r, next, answer, group))], Admit(r, next, answer, now))
  {
    AdmitTakesOut(r, next, answer, now);
    hide Admit, Sound, Follows;
  }

  /** The next turn goes to the first waiting entry that has had none. */
  lemma PassingGoesOn(q: Queue, turns: seq<Turn>, world: World, now: Time, r: Queue, next: nat, group: seq<Arrival>)
    requires Passing(q, turns, world, now, r) && Waits(r, next) && next !in Entries(turns)
    requires forall e: nat | Waits(r, e) && e !in Entries(turns) :: Before(r.entries[next], r.entries[e])
    ensures var meanwhile := Heard(r, next, world(r, next), group);
      Passing(q, turns + [Turn(next, meanwhile)], world, now, AdmitAmid(r, next, world(r, next), meanwhile, now))
  {
    var answer := world(r, next);
    var meanwhile := Heard(r, next, answer, group);
    var t, s := Turn(next, meanwhile), AdmitAmid(r, next, answer, meanwhile, now);
    OneTurnOn(turns, t);
    AmidFollows(r, next, answer, meanwhile, now);
    FollowsOn(q, r, s);
    DistinctAppend(Entries(turns), next);
    assert PassFrom(q, turns + [t], world, now) == s;
    if Quiet(turns + [t]) {
      UndisturbedTurn(r, next, answer, meanwhile, now);
      hide AdmitAmid, PassFrom, Admit, AdmitAll, RowSound, Fits, BatchSound, Evolves, EndsHeard, FirstCome, At, Told;
      PassGoesOn(q, Entries(turns), world, now, r, next);
      FirstComeOn(q, Entries(turns), world, now, r, next);
      EndsHeardOn(q, turns, world, now, r, next, group);
      HearersLeave(turns, r, next, answer, group, now);
    }
  }

  /** A pass nobody else disturbed, and that was called again, took somebody out of the queue. */
  lemma CalledLeavesFewer(q: Queue, turns: seq<Turn>, world: World, now: Time, r: Queue)
    requires Passing(q, turns, world, now, r) && Quiet(turns) && Called(turns)
    ensures |r.entries| == |q.entries| && QueuedIn(r.entries) < QueuedIn(q.entries)
  {
    hide PassFrom, AdmitAll, RowSound, Fits, BatchSound, Evolves, FirstCome, At, Told;
    var t :| t in turns && DrainCall in t.meanwhile;
    var k: nat :| k < |turns| && turns[k] == t;
    assert Waits(q, Entries(turns)[k]);
    assert !Waits(r, t.entry);
    assert q.entries[..|q.entries|] == q.entries && r.entries[..|q.entries|] == r.entries;
    FewerQueued(q.entries, r.entries, |q.entries|);
  }

  /**
   * The passes of one drain: each but the last was called again, and the last was not, unless the queue was stopped.
   */
  ghost predicate AllAnswered(passes: seq<seq<Turn>>, stopped: bool) {
    && passes != []
    && (forall p | 0 <= p < |passes| - 1 :: Called(passes[p]))
    && (Called(passes[|passes| - 1]) ==> stopped)
  }

  /**
   * What a pass that is over says of the queue: nobody waits untried; and nobody's step disturbing it, it is a drained
   * one.
   */
  ghost predicate Finished(q: Queue, turns: seq<Turn>, world: World, now: Time, r: Queue)
    requires Linked(q)
  {
    && (forall e: nat | Waits(r, e) :: e in Entries(turns))
    && (Quiet(turns) ==> Drained(q, Entries(turns), world, now, r) && FirstCome(q, Entries(turns), world, now))
    && (Quiet(turns) && !Called(turns) ==> forall b :: NoneEndsAtOnce(q, Entries(turns), world, now, b))
  }

  lemma PassingFinishes(q: Queue, turns: seq<Turn>, world: World, now: Time, r: Queue)
    requires Passing(q, turns, world, now, r) && forall e: nat | Waits(r, e) :: e in Entries(turns)
    ensures Finished(q, turns, world, now, r)
  {
    hide PassFrom, AdmitAll, RowSound, Fits, BatchSound, Evolves, FirstCome;
    if Quiet(turns) && !Called(turns) {
      forall b
        ensures NoneEndsAtOnce(q, Entries(turns), world, now, b)
      {
        QuietMeansNoneEnds(q, turns, world, now, r, b);
      }
    }
  }

  lemma QuietMeansNoneEnds(q: Queue, turns: seq<Turn>, world: World, now: Time, r: Queue, b: nat)
    requires Passing(q, turns, world, now, r) && Quiet(turns) && !Called(turns)
    ensures NoneEndsAtOnce(q, Entries(turns), world, now, b)
  {
    var tried := Entries(turns);
    hide PassFrom, AdmitAll, RowSound, Fits, BatchSound, Evolves, FirstCome, At, Told, HeldBack, Overtaken,
        NothingRequeued;
    forall k: nat | TurnOf(q, tried, b, k) && Runs(At(q, tried, world, now, k), b)
      ensures var answer := Told(q, tried, world, now, k); answer.Launched? ==> answer.ended.None?
    {
      WaitsForTurn(q, tried, world, now, k, k);
      InItsBatch(q, tried, world, now, k, k);
      assert turns[k] in turns && tried[k] == turns[k].entry;
    }
  }

  lemma PassingFollows(q: Queue, turns: seq<Turn>, world: World, now: Time, r: Queue)
    requires Passing(q, turns, world, now, r)
    ensures Sound(q) && Follows(q, r) && r == PassFrom(q, turns, world, now)
  {
    hide RowSound, Fits, BatchSound, Evolves, FirstCome, EndsHeard, PassFrom, Pass;
  }

  lemma RoomForTurns(q: Queue, turns: seq<Turn>, world: World, now: Time, r: Queue)
    requires Passing(q, turns, world, now, r)
    ensures |turns| <= |r.entries|
  {
    hide RowSound, Fits, BatchSound, Evolves, FirstCome, EndsHeard, PassFrom, Pass;
    RoomLeft(Entries(turns), |r.entries|);
  }

  lemma QuietKeepsLength(q: Queue, e: nat, answer: Answer, meanwhile: seq<Arrival>, now: Time)
    requires Sound(q)
    ensures Undisturbed(meanwhile) ==> |AdmitAmid(q, e, answer, meanwhile, now).entries| == |q.entries|
  {
    if Undisturbed(meanwhile) {
      UndisturbedTurn(q, e, answer, meanwhile, now);
      AdmitTakesOut(q, e, answer, now);
    }
  }

  /** What one turn does to the rows, whether it starts its entry, and what it hears. */
  ghost predicate TurnTaken(q: Queue, e: nat, answer: Answer, group: seq<Arrival>, now: Time, r: Queue, started: bool,
      meanwhile: seq<Arrival>)
    requires Linked(q)
  {
    && r == AdmitAmid(q, e, answer, meanwhile, now) && meanwhile == Heard(q, e, answer, group)
    && (started <==> Waits(q, e) && BatchOf(q, e).state.BatchRunning? && Starts(answer))
  }

  /** A call that arrives is remembered, unless the queue has been stopped by then, and nothing else is. */
  predicate CallsKept(arrivals: seq<Arrival>, wasStopped: bool, stopped: bool, wasCalled: bool, called: bool) {
    && (wasStopped ==> stopped) && (wasCalled ==> called)
    && (called ==> wasCalled || DrainCall in arrivals)
    && (wasCalled || DrainCall in arrivals ==> called || stopped)
  }

  /** Turns that start nothing hear nothing, and leave what admission alone does. */
  lemma UnstartedTurn(q: Queue, e: nat, answer: Answer, group: seq<Arrival>, now: Time)
    requires Linked(q) && Waits(q, e)
    ensures var running := BatchOf(q, e).state.BatchRunning?;
      && (!running ==> TurnTaken(q, e, answer, group, now, Next(q, Decline(e, now)), false, []))
      && (running && answer.NotYet? ==> TurnTaken(q, e, answer, group, now, q, false, []))
      && (running && answer.Abandoned? ==>
            TurnTaken(q, e, answer, group, now, Next(q, Abandon(e, answer.detail, now)), false, []))
      && (running && answer.Drifted? ==>
            TurnTaken(q, e, answer, group, now, Next(q, Reask(e, answer.detail)), false, []))
  {
    hide Next;
  }

  lemma AskIs(inputs: Wiring, decide: Deciding, q: Queue, e: nat)
    requires e < |q.entries|
    ensures Ask(inputs, decide)(q, e) == AnswerTo(q, e, inputs(q, e), decide(q, e))
  {
  }

  /** A turn taken is one turn more of the pass; if nothing came to it, the table is as long as before. */
  lemma TurnAdds(q: Queue, turns: seq<Turn>, world: World, now: Time, r: Queue, next: nat, group: seq<Arrival>,
      s: Queue,
      started: bool, meanwhile: seq<Arrival>)
    requires Passing(q, turns, world, now, r) && Waits(r, next) && next !in Entries(turns)
    requires forall e: nat | Waits(r, e) && e !in Entries(turns) :: Before(r.entries[next], r.entries[e])
    requires Linked(r) && TurnTaken(r, next, world(r, next), group, now, s, started, meanwhile)
    ensures var all := turns + [Turn(next, meanwhile)];
      && Passing(q, all, world, now, s) && Sound(s) && |all| <= |s.entries|
      && (Called(all) <==> Called(turns) || DrainCall in meanwhile)
      && (group == [] || !started ==> |s.entries| == |r.entries| && (Quiet(turns) ==> Quiet(all)))
  {
    var all := turns + [Turn(next, meanwhile)];
    OneTurnOn(turns, Turn(next, meanwhile));
    TurnKeepsTable(q, turns, world, now, r, next, group, s, started, meanwhile);
    PassingGoesOn(q, turns, world, now, r, next, group);
    assert Passing(q, all, world, now, s);
    hide Passing, AdmitAmid, TurnTaken, Sound, Quiet, Called, Undisturbed, Linked;
    PassingFollows(q, all, world, now, s);
    RoomForTurns(q, all, world, now, s);
  }

  lemma TurnKeepsTable(q: Queue, turns: seq<Turn>, world: World, now: Time, r: Queue, next: nat, group: seq<Arrival>,
      s: Queue, started: bool, meanwhile: seq<Arrival>)
    requires Passing(q, turns, world, now, r)
    requires Linked(r) && TurnTaken(r, next, world(r, next), group, now, s, started, meanwhile)
    ensures group == [] || !started ==> |s.entries| == |r.entries| && Undisturbed(meanwhile)
  {
    PassingFollows(q, turns, world, now, r);
    hide Passing, AdmitAmid, Sound;
    QuietKeepsLength(r, next, world(r, next), meanwhile, now);
  }

  /**
   * Whoever calls, and whatever ends early: a drain's last pass, if no step of another caller disturbed it, strands a
   * batch exactly as its rows and its wiring foretold when that pass began.
   */
  lemma LastPassStrandsIffDoomed(began: Queue, turns: seq<Turn>, wires: Wires, decide: Deciding, now: Time, r: Queue,
      b: nat)
    requires Linked(began) && Finished(began, turns, Ask(Standstill(wires), decide), now, r)
    requires Quiet(turns) && !Called(turns) && KeysDiffer(began, b)
    ensures forall i | 0 <= i < |TurnsAhead(began, b)| :: TurnsAhead(began, b)[i] < |began.entries|
    ensures Stranded(r, b) <==> Runs(began, b) && !Alive(began, b) && Doomed(began, b, wires)
  {
    hide Ask, FirstCome, NoneEndsAtOnce, KeysDiffer, TurnsAhead, Doomed, Alive, Stranded, Waiters, Quiet, Called,
        Linked;
    StrandedIffDoomed(began, Entries(turns), wires, decide, now, r, b);
  }
}
