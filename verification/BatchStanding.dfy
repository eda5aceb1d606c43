/**
 * How a waiting entry stands with the commands of its own batch (apps/server/src/runs/queue.ts, inBatchStanding), what
 * an admission leaves alone, and the order a batch is enqueued in.
 */
module BatchStanding {
  import opened Sorting
  import opened Reachability
  import opened RunQueue
  import opened QueueRuns
  import opened QueueOrder
  import opened Admission
  import opened Scopes

  /** An input another command produces, and whether there is an object behind it yet. */
  datatype Consumed = Consumed(producer: nat, bound: bool)

  datatype Standing = Ready | WaitingOn(producers: set<nat>) | AbandonedBy(producers: set<nat>)

  predicate Siblings(q: Queue, e: nat, f: nat)
    requires e < |q.entries| && f < |q.entries|
  {
    q.entries[f].batch == q.entries[e].batch && q.entries[f].command != q.entries[e].command
  }

  /** The other commands of the entry's batch with their states, from the first `n` rows. */
  function SiblingStates(q: Queue, e: nat, n: nat): (states: map<nat, EntryState>)
    requires e < |q.entries| && n <= |q.entries|
    ensures forall c | c in states :: exists f: nat ::
        f < n && Siblings(q, e, f) && q.entries[f].command == c && q.entries[f].state == states[c]
  {
    if n == 0 then map[]
    else
      var before := SiblingStates(q, e, n - 1);
      if Siblings(q, e, n - 1) then before[q.entries[n - 1].command := q.entries[n - 1].state] else before
  }

  /** A producer that is over without producing, while what it was to produce is missing. */
  predicate IsDead(states: map<nat, EntryState>, input: Consumed) {
    input.producer in states && Settled(states[input.producer]) && !states[input.producer].Done? && !input.bound
  }

  predicate IsPending(states: map<nat, EntryState>, input: Consumed) {
    input.producer in states && !Settled(states[input.producer])
  }

  function Dead(states: map<nat, EntryState>, inputs: seq<Consumed>): (producers: set<nat>)
    ensures forall i | i in inputs && IsDead(states, i) :: i.producer in producers
  {
    set i | i in inputs && IsDead(states, i) :: i.producer
  }

  function Pending(states: map<nat, EntryState>, inputs: seq<Consumed>): (producers: set<nat>)
    ensures forall i | i in inputs && IsPending(states, i) :: i.producer in producers
  {
    set i | i in inputs && IsPending(states, i) :: i.producer
  }

  function StandingOf(states: map<nat, EntryState>, inputs: seq<Consumed>): Standing {
    var dead, pending := Dead(states, inputs), Pending(states, inputs);
    if dead != {} then AbandonedBy(dead) else if pending != {} then WaitingOn(pending) else Ready
  }

  /** What admission decides about an entry that is ready: its contract has drifted, or it is started. */
  type Decided = a: Answer | a.Drifted? || a.Refused? || a.Launched? witness Drifted("")

  /** Abandoned as soon as one producer is dead, however many are still to come; otherwise waiting for any that are. */
  lemma StandingIff(states: map<nat, EntryState>, inputs: seq<Consumed>)
    ensures StandingOf(states, inputs).AbandonedBy? <==> exists i :: i in inputs && IsDead(states, i)
    ensures StandingOf(states, inputs).WaitingOn? <==>
            (exists i :: i in inputs && IsPending(states, i)) && forall i | i in inputs :: !IsDead(states, i)
  {
    var dead, pending := Dead(states, inputs), Pending(states, inputs);
    if p :| p in dead {
      assert exists i :: i in inputs && IsDead(states, i) && i.producer == p;
    }
    if p :| p in pending {
      assert exists i :: i in inputs && IsPending(states, i) && i.producer == p;
    }
  }

  lemma DeadNext(states: map<nat, EntryState>, inputs: seq<Consumed>, input: Consumed)
    ensures Dead(states, inputs + [input]) == Dead(states, inputs) + if IsDead(states, input) then {input.producer}
        else {}
    ensures Pending(states, inputs + [input]) == Pending(states, inputs) + if IsPending(states, input)
        then {input.producer} else {}
  {
  }

  const ABANDONED := "it consumes an output of a run that settled without producing it; this run cannot happen"

  function AnswerTo(q: Queue, e: nat, inputs: seq<Consumed>, decided: Decided): Answer
    requires e < |q.entries|
  {
    Answered(StandingOf(SiblingStates(q, e, |q.entries|), inputs), decided)
  }

  function Answered(standing: Standing, decided: Decided): Answer {
    match standing
    case WaitingOn(_) => NotYet
    case AbandonedBy(_) => Abandoned(ABANDONED)
    case Ready => decided
  }

  /** The board's wiring and the run path, as an entry finds them when its turn comes. */
  type Wiring = (Queue, nat) -> seq<Consumed>
  type Deciding = (Queue, nat) -> Decided

  function Ask(inputs: Wiring, decide: Deciding): World {
    (q: Queue, e: nat) => if e < |q.entries| then AnswerTo(q, e, inputs(q, e), decide(q, e)) else NotYet
  }

  /** An entry is told to wait only for a sibling that is not over. */
  lemma ToldToWait(q: Queue, e: nat, inputs: seq<Consumed>, decided: Decided) returns (f: nat)
    requires e < |q.entries| && AnswerTo(q, e, inputs, decided).NotYet?
    ensures f < |q.entries| && Siblings(q, e, f) && !Settled(q.entries[f].state)
    ensures exists i :: i in inputs && i.producer == q.entries[f].command
  {
    var states := SiblingStates(q, e, |q.entries|);
    var i :| i in inputs && IsPending(states, i);
    f :| f < |q.entries| && Siblings(q, e, f) && q.entries[f].command == i.producer
        && q.entries[f].state == states[i.producer];
  }

  // ----- what an admission leaves alone

  /** In a batch that still runs, nothing but the entry tried has moved. */
  ghost predicate Spares(q: Queue, r: Queue, e: nat)
    requires Linked(q) && Linked(r)
  {
    && |r.entries| == |q.entries|
    && forall f: nat | f < |q.entries| && f != e && BatchOf(r, f).state.BatchRunning? ::
         BatchOf(q, f).state.BatchRunning? && r.entries[f].state == q.entries[f].state
  }

  lemma SparesOn(q: Queue, r: Queue, s: Queue, e: nat)
    requires Linked(q) && Linked(r) && Linked(s) && Spares(q, r, e) && Spares(r, s, e)
    ensures Spares(q, s, e)
  {
  }

  lemma EndSpares(q: Queue, e: nat, end: End, now: Time)
    requires Linked(q) && e < |q.entries|
    ensures Linked(SettleEntryFor(q, e, end, now)) && Spares(q, SettleEntryFor(q, e, end, now), e)
  {
    hide KeysKept, OutcomeOf, DetailOf, PauseReason, HasOutstanding;
  }

  lemma StepSpares(q: Queue, step: Step)
    requires Linked(q) && Taken(q, step) && Admitting(step)
    ensures Linked(Next(q, step)) && Spares(q, Next(q, step), step.entry)
  {
    hide KeysKept, SettleEntryFor;
    match step
    case Bind(e, run, session, ended, now) =>
      var bound := MarkRunning(q, e, run, session);
      if ended.Some? {
        EndSpares(bound, e, ended.value, now);
        SparesOn(q, bound, SettleEntryFor(bound, e, ended.value, now), e);
      }
    case _ =>
  }

  lemma AdmitSpares(q: Queue, e: nat, answer: Answer, now: Time)
    requires Linked(q)
    ensures Spares(q, Admit(q, e, answer, now), e)
  {
    if Waits(q, e) && !(BatchOf(q, e).state.BatchRunning? && answer.NotYet?) {
      var step := if !BatchOf(q, e).state.BatchRunning? then Decline(e, now) else
        match answer
        case Abandoned(detail) => Abandon(e, detail, now)
        case Drifted(detail) => Reask(e, detail)
        case _ => Start(e, now);
      hide Next, Spares, Linked;
      StepSpares(q, step);
      if step.Start? {
        StartStarts(q, e, now);
        var started := Next(q, step);
        var second := if answer.Refused? then Refuse(e, answer.message, now)
            else Bind(e, answer.run, answer.session, answer.ended, now);
        StepSpares(started, second);
        SparesOn(q, started, Next(started, second), e);
      }
    }
  }

  lemma {:induction false} AdmitAllFollows(q: Queue, tried: seq<nat>, world: World, now: Time)
    requires Sound(q)
    ensures Follows(q, AdmitAll(q, tried, world, now)) && NothingRequeued(q, AdmitAll(q, tried, world, now))
    decreases |tried|
  {
    hide Admit, Evolves, RowSound, Fits, BatchSound;
    if tried == [] {
      FollowsItself(q);
    } else {
      var before, e := AdmitAll(q, tried[..|tried| - 1], world, now), tried[|tried| - 1];
      AdmitAllFollows(q, tried[..|tried| - 1], world, now);
      AdmitTakesOut(before, e, world(before, e), now);
      FollowsOn(q, before, AdmitAll(q, tried, world, now));
    }
  }

  ghost predicate Stays(s: Queue, r: Queue, f: nat)
    requires Linked(s) && Linked(r)
  {
    && |s.entries| == |r.entries|
    && (f < |s.entries| && BatchOf(r, f).state.BatchRunning? ==>
          BatchOf(s, f).state.BatchRunning? && r.entries[f].state == s.entries[f].state)
  }

  lemma StaysOn(s: Queue, t: Queue, r: Queue, f: nat, e: nat)
    requires Linked(s) && Linked(t) && Linked(r) && Stays(s, t, f) && Spares(t, r, e) && f != e
    ensures Stays(s, r, f)
  {
  }

  /** From the k-th turn on, an entry whose turn is past stays as it is for as long as its batch runs. */
  lemma {:induction false} PastTurnStays(q: Queue, tried: seq<nat>, world: World, now: Time, k: nat, f: nat)
    requires Linked(q) && k <= |tried| && f !in tried[k..]
    ensures Stays(AdmitAll(q, tried[..k], world, now), AdmitAll(q, tried, world, now), f)
    decreases |tried|
  {
    if k == |tried| {
      assert tried[..k] == tried;
    } else {
      var last := |tried| - 1;
      var before := AdmitAll(q, tried[..last], world, now);
      TurnsLeft(tried, k);
      hide Admit, Linked, Stays, Spares;
      PastTurnStays(q, tried[..last], world, now, k, f);
      AdmitSpares(before, tried[last], world(before, tried[last]), now);
      StaysOn(AdmitAll(q, tried[..k], world, now), before, AdmitAll(q, tried, world, now), f, tried[last]);
    }
  }

  lemma TurnsLeft(tried: seq<nat>, k: nat)
    requires k < |tried|
    ensures var last := |tried| - 1;
            && tried[..last][..k] == tried[..k] && tried[last] in tried[k..]
            && forall e | e in tried[..last][k..] :: e in tried[k..]
  {
    var last := |tried| - 1;
    assert tried[k..][last - k] == tried[last];
    assert tried[..last][k..] == tried[k..last];
  }

  // ----- a finished pass

  /** Within the batch, an entry stands strictly behind the entries of the commands it needs. */
  ghost predicate InNeedOrder(q: Queue, b: nat, needs: Relation) {
    forall e, f | 0 <= e < |q.entries| && 0 <= f < |q.entries| && q.entries[e].batch == b && q.entries[f].batch == b
                  && (q.entries[e].command, q.entries[f].command) in needs ::
      !Before(q.entries[e], q.entries[f])
  }

  /** What admission finds wired, turn by turn, are needs the batch was ordered by. */
  ghost predicate WiredAsNeeded(q: Queue, tried: seq<nat>, inputs: Wiring, decide: Deciding, now: Time, b: nat,
      needs: Relation)
    requires Linked(q)
  {
    forall k | 0 <= k < |tried| && tried[k] < |q.entries| && q.entries[tried[k]].batch == b ::
      forall i | i in inputs(AdmitAll(q, tried[..k], Ask(inputs, decide), now), tried[k]) ::
        (q.entries[tried[k]].command, i.producer) in needs
  }

  /** Something of the batch will still make a move of its own, or is asking for one. */
  ghost predicate Alive(q: Queue, b: nat) {
    exists f: nat :: f < |q.entries| && q.entries[f].batch == b
      && (q.entries[f].state.Starting? || q.entries[f].state.Running? || q.entries[f].state.NeedsReask?)
  }

  /** A finished pass: every entry that still waits has had its turn. */
  ghost predicate Drained(q: Queue, tried: seq<nat>, world: World, now: Time, r: Queue) {
    && Sound(q) && r == AdmitAll(q, tried, world, now) && Distinct(tried) && InOrder(q, tried)
    && HeldBack(q, tried, world, now, r)
    && forall e: nat | Waits(r, e) :: e in tried
  }

  lemma BehindIsPast(q: Queue, tried: seq<nat>, k: nat, f: nat)
    requires InOrder(q, tried) && k < |tried| && f < |q.entries| && f != tried[k]
        && !Before(q.entries[tried[k]], q.entries[f])
    ensures f !in tried[k..]
  {
    forall m | k <= m < |tried|
      ensures tried[m] != f
    {
      assert m > k ==> Before(q.entries[tried[k]], q.entries[tried[m]]);
    }
  }

  lemma UnsettledInRunning(r: Queue, f: nat)
    requires Sound(r) && f < |r.entries| && BatchOf(r, f).state.BatchRunning? && !Settled(r.entries[f].state)
    ensures Waits(r, f) || r.entries[f].state.Starting? || r.entries[f].state.Running? || r.entries[f].state.NeedsReask?
  {
    assert Fits(r.batches[r.entries[f].batch], r.entries[f].state);
  }

  // ----- where the order comes from

  /** A scope's commands, listed in the order `Ordered` puts them, numbered from one. */
  ghost predicate ListsScope(items: seq<Item>, needs: Relation, ids: seq<nat>) {
    var ordered := Ordered(needs, ids);
    |items| == |ordered| && forall k | 0 <= k < |items| :: items[k].command == ordered[k] && items[k].position == k + 1
  }

  /** A scope enqueued in its order stands in need order exactly when its needs have no cycle. */
  lemma InitiatedInNeedOrderIff(q: Queue, key: nat, items: seq<Item>, now: Time, needs: Relation, ids: seq<nat>)
    requires Linked(q) && Taken(q, Initiate(key, items, now)) && Distinct(ids) && ListsScope(items, needs, ids)
    ensures InNeedOrder(Next(q, Initiate(key, items, now)), |q.batches|, needs) <==> Acyclic(Among(needs, ids))
  {
    hide Ordered, Next, Linked, Taken, InNeedOrder, ProducersFirst, Acyclic, Among, Distinct;
    var r := Next(q, Initiate(key, items, now));
    NewRows(q, key, items, now);
    ProducersFirstIffAcyclic(needs, ids);
    OrderedRowsIff(r, |q.batches|, |q.entries|, items, now, needs, Ordered(needs, ids));
  }

  lemma NewRows(q: Queue, key: nat, items: seq<Item>, now: Time)
    requires Linked(q) && Taken(q, Initiate(key, items, now))
    ensures var r, n := Next(q, Initiate(key, items, now)), |q.entries|;
            && |r.entries| == n + |items|
            && (forall i | 0 <= i < n :: r.entries[i].batch != |q.batches|)
            && (forall i: nat | n <= i < |r.entries| :: r.entries[i] == NewEntry(i, |q.batches|, items[i - n], now))
  {
  }

  lemma OrderedRowsIff(r: Queue, b: nat, n: nat, items: seq<Item>, now: Time, needs: Relation, ordered: seq<nat>)
    requires |items| == |ordered| && |r.entries| == n + |items| && forall i | 0 <= i < n :: r.entries[i].batch != b
    requires forall i: nat | n <= i < |r.entries| :: r.entries[i] == NewEntry(i, b, items[i - n], now)
    requires forall k | 0 <= k < |items| :: items[k].command == ordered[k] && items[k].position == k + 1
    ensures InNeedOrder(r, b, needs) <==> ProducersFirst(needs, ordered)
  {
    forall i, j | 0 <= i < |ordered| && 0 <= j < |ordered|
      ensures r.entries[n + i].command == ordered[i] && r.entries[n + j].command == ordered[j]
      ensures Before(r.entries[n + i], r.entries[n + j]) <==> i <= j
    {
    }
    if ProducersFirst(needs, ordered) {
      forall e, f | n <= e < |r.entries| && n <= f < |r.entries|
          && (r.entries[e].command, r.entries[f].command) in needs
        ensures !Before(r.entries[e], r.entries[f])
      {
        assert (ordered[e - n], ordered[f - n]) in needs;
        assert r.entries[n + (e - n)] == r.entries[e] && r.entries[n + (f - n)] == r.entries[f];
      }
    }
    if InNeedOrder(r, b, needs) {
      forall i, j | 0 <= i < |ordered| && 0 <= j < |ordered| && (ordered[i], ordered[j]) in needs
        ensures j < i
      {
        assert !Before(r.entries[n + i], r.entries[n + j]);
      }
    }
  }

  /** No step adds an entry to a batch that is there. */
  lemma NoneJoins(q: Queue, step: Step, b: nat)
    requires Linked(q) && b < |q.batches|
    ensures forall i | |q.entries| <= i < |Next(q, step).entries| :: Next(q, step).entries[i].batch != b
  {
    if !step.Initiate? && Taken(q, step) {
      StepKeepsKeys(q, step);
    }
  }

  lemma NextKeepsNeedOrder(q: Queue, step: Step, b: nat, needs: Relation)
    requires Linked(q) && b < |q.batches| && InNeedOrder(q, b, needs)
    ensures InNeedOrder(Next(q, step), b, needs)
  {
    NextLinked(q, step);
    NoneJoins(q, step, b);
    var r := Next(q, step);
    hide Next;
    forall e, f | 0 <= e < |r.entries| && 0 <= f < |r.entries| && r.entries[e].batch == b && r.entries[f].batch == b
                  && (r.entries[e].command, r.entries[f].command) in needs
      ensures !Before(r.entries[e], r.entries[f])
    {
      assert SameKey(q.entries[e], r.entries[e]) && SameKey(q.entries[f], r.entries[f]);
    }
  }

  /** And it goes on standing so, whatever happens to the queue. */
  lemma {:induction false} NeedOrderForEver(q: Queue, steps: seq<Step>, b: nat, needs: Relation)
    requires Linked(q) && b < |q.batches| && InNeedOrder(q, b, needs)
    ensures InNeedOrder(Run(q, steps), b, needs)
    decreases |steps|
  {
    hide Next, InNeedOrder;
    if steps != [] {
      NextKeepsNeedOrder(q, steps[0], b, needs);
      NextLinked(q, steps[0]);
      NeedOrderForEver(Next(q, steps[0]), steps[1..], b, needs);
    }
  }
}
