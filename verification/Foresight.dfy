/**
 * Whether a drain will strand a batch, read off its rows and its wiring before the drain begins
 * (apps/server/src/runs/queue.ts).
 */
module Foresight {
  import opened Wrappers
  import opened Sorting
  import opened RunQueue
  import opened QueueRuns
  import opened QueueOrder
  import opened Admission
  import opened BatchStanding
  import opened Stranding

  /** What each entry takes from other commands, while the wiring stands still. */
  type Wires = nat -> seq<Consumed>

  function Standstill(wires: Wires): Wiring {
    (q: Queue, e: nat) => wires(e)
  }

  function StandingAt(t: Queue, e: nat, wires: Wires): Standing
    requires e < |t.entries|
  {
    StandingOf(SiblingStates(t, e, |t.entries|), wires(e))
  }

  function CalledOffAt(t: Queue, e: nat): Queue
    requires e < |t.entries|
  {
    t.(entries := t.entries[e := t.entries[e].(state := Cancelled)])
  }

  /**
   * Who will be told to wait, one after the other calling off whoever is abandoned; nothing at all if somebody is
   * ready.
   */
  function Waiters(t: Queue, order: seq<nat>, wires: Wires): (waiters: Option<set<nat>>)
    requires forall i | 0 <= i < |order| :: order[i] < |t.entries|
    ensures waiters.Some? ==> forall e | e in waiters.value :: e in order
    decreases |order|
  {
    if order == [] then Some({})
    else
      match StandingAt(t, order[0], wires)
      case Ready => None
      case AbandonedBy(_) => Waiters(CalledOffAt(t, order[0]), order[1..], wires)
      case WaitingOn(_) =>
        var later := Waiters(t, order[1..], wires);
        if later.None? then None else Some(later.value + {order[0]})
  }

  /** The batch's entries that wait, in queue order. */
  function TurnsAhead(q: Queue, b: nat): seq<nat> {
    Ids(Filter(Waiting(q), (e: Entry) => e.batch == b))
  }

  function Ids(rows: seq<Entry>): (ids: seq<nat>)
    ensures |ids| == |rows| && forall i | 0 <= i < |rows| :: ids[i] == rows[i].id
  {
    seq(|rows|, i requires 0 <= i < |rows| => rows[i].id)
  }

  ghost predicate Ahead(q: Queue, b: nat, order: seq<nat>) {
    && Distinct(order) && (forall e: nat :: e in order <==> Waits(q, e) && q.entries[e].batch == b) && InOrder(q, order)
  }

  lemma {:induction false} FilterSorted<T(!new)>(xs: seq<T>, keep: T -> bool, leq: (T, T) -> bool)
    requires SortedBy(xs, leq)
    ensures SortedBy(Filter(xs, keep), leq)
  {
    if xs != [] {
      FilterSorted(xs[1..], keep, leq);
      var rest := Filter(xs[1..], keep);
      forall j | 0 <= j < |rest|
        ensures leq(xs[0], rest[j])
      {
        assert rest[j] in rest;
      }
    }
  }

  lemma TurnsAreAhead(q: Queue, b: nat)
    requires Linked(q)
    ensures Ahead(q, b, TurnsAhead(q, b))
  {
    var keep, leq := (e: Entry) => e.batch == b, (a: Entry, c: Entry) => Before(a, c);
    var rows := Filter(Waiting(q), keep);
    WaitingIsAQueue(q);
    FilterDistinct(Waiting(q), keep);
    FilterSorted(Waiting(q), keep, leq);
    hide Waiting;
    assert forall row :: row in rows <==> row in q.entries && row.state.Queued? && row.batch == b;
    RowsAreTurns(q, b, rows);
    assert TurnsAhead(q, b) == Ids(rows);
  }

  lemma RowsAreTurns(q: Queue, b: nat, rows: seq<Entry>)
    requires Linked(q) && Distinct(rows) && forall row ::
        row in rows <==> row in q.entries && row.state.Queued? && row.batch == b
    requires SortedBy(rows, (a: Entry, c: Entry) => Before(a, c))
    ensures Ahead(q, b, Ids(rows))
  {
    var ids, leq := Ids(rows), (a: Entry, c: Entry) => Before(a, c);
    forall i | 0 <= i < |rows|
      ensures Waits(q, ids[i]) && q.entries[ids[i]] == rows[i] && rows[i].batch == b
    {
      assert rows[i] in rows;
      var e :| 0 <= e < |q.entries| && q.entries[e] == rows[i];
    }
    forall e: nat | Waits(q, e) && q.entries[e].batch == b
      ensures e in ids
    {
      assert q.entries[e] in rows;
      var i :| 0 <= i < |rows| && rows[i] == q.entries[e];
      assert ids[i] == e;
    }
    forall i, j | 0 <= i < j < |rows|
      ensures ids[i] != ids[j] && Before(q.entries[ids[i]], q.entries[ids[j]])
    {
      assert leq(rows[i], rows[j]);
    }
  }

  // ----- a pass beside what was foreseen

  /** At each turn of a pass, nothing that waits untried comes before the one whose turn it is. */
  ghost predicate FirstCome(q: Queue, tried: seq<nat>, world: World, now: Time)
    requires Linked(q)
  {
    forall k: nat, f: nat | k < |tried| && Waits(At(q, tried, world, now, k), f) && f !in tried[..k] ::
      tried[k] < |q.entries| && f < |q.entries| && Before(q.entries[tried[k]], q.entries[f])
  }

  /** No two entries of the batch tie: each has a position of its own. */
  ghost predicate KeysDiffer(q: Queue, b: nat) {
    forall e, f | 0 <= e < |q.entries| && 0 <= f < |q.entries| && q.entries[e].batch == b && q.entries[f].batch == b
                  && Before(q.entries[e], q.entries[f]) && Before(q.entries[f], q.entries[e]) ::
      e == f
  }

  /** The batch's commands and states are those foreseen. */
  ghost predicate Agree(s: Queue, t: Queue, b: nat) {
    && |s.entries| == |t.entries|
    && forall i | 0 <= i < |s.entries| ::
         && (s.entries[i].batch == b <==> t.entries[i].batch == b)
         && (s.entries[i].batch == b ==>
               s.entries[i].command == t.entries[i].command && s.entries[i].state == t.entries[i].state)
  }

  lemma {:induction false} SameSiblings(s: Queue, t: Queue, b: nat, e: nat, n: nat)
    requires Agree(s, t, b) && e < |s.entries| && s.entries[e].batch == b && n <= |s.entries|
    ensures SiblingStates(s, e, n) == SiblingStates(t, e, n)
  {
    if n > 0 {
      SameSiblings(s, t, b, e, n - 1);
    }
  }

  lemma AnswerForeseen(s: Queue, t: Queue, b: nat, e: nat, wires: Wires, decided: Decided)
    requires Agree(s, t, b) && e < |s.entries| && s.entries[e].batch == b
    ensures var answer, standing := AnswerTo(s, e, wires(e), decided), StandingAt(t, e, wires);
            match standing
            case WaitingOn(_) => answer.NotYet?
            case AbandonedBy(_) => answer.Abandoned?
            case Ready => answer == decided
  {
    SameSiblings(s, t, b, e, |s.entries|);
  }

  lemma AbandonCallsOff(s: Queue, e: nat, detail: string, now: Time)
    requires Linked(s) && Waits(s, e) && BatchOf(s, e).state.BatchRunning?
    ensures var r := Admit(s, e, Abandoned(detail), now);
            && |r.entries| == |s.entries| && r.entries[e] == s.entries[e].(
                 state := Cancelled, detail := Some(detail), settledAt := Some(now))
            && forall i | 0 <= i < |s.entries| && i != e :: r.entries[i] == s.entries[i]
  {
    hide KeysKept;
  }

  /** As foreseen before a turn, so after it. */
  lemma TurnAgrees(s: Queue, t: Queue, b: nat, e: nat, answer: Answer, now: Time)
    requires Linked(s) && Agree(s, t, b) && Waits(s, e) && s.entries[e].batch == b && Runs(s, b)
    requires answer.NotYet? || answer.Abandoned?
    ensures Agree(Admit(s, e, answer, now), if answer.NotYet? then t else CalledOffAt(t, e), b)
  {
    if answer.NotYet? {
      NotYetStays(s, e, now);
    } else {
      AbandonCallsOff(s, e, answer.detail, now);
      hide Admit, Linked;
    }
  }

  /** The pass up to its k-th turn has gone through the first `i` of those ahead, and left what `t` foresees. */
  ghost predicate Aligned(q: Queue, tried: seq<nat>, world: World, now: Time, b: nat, order: seq<nat>, k: nat, i: nat,
      t: Queue)
    requires Linked(q)
  {
    && k <= |tried| && i <= |order| && Agree(At(q, tried, world, now, k), t, b) && Runs(At(q, tried, world, now, k), b)
    && forall e | e in order :: e in order[..i] <==> e in tried[..k]
  }

  /** Whoever is ahead and has had no turn still waits. */
  lemma StillAhead(q: Queue, tried: seq<nat>, world: World, now: Time, b: nat, order: seq<nat>, k: nat, o: nat)
    requires Sound(q) && k <= |tried| && Ahead(q, b, order) && o in order && o !in tried[..k]
    requires Runs(At(q, tried, world, now, k), b)
    ensures Waits(At(q, tried, world, now, k), o)
  {
    AtFollows(q, tried, world, now, k);
    assert tried[..k][..0] == [] && tried[..k][0..] == tried[..k];
    PastTurnStays(q, tried[..k], world, now, 0, o);
    hide AdmitAll, RowSound, Fits, BatchSound;
    assert SameKey(q.entries[o], At(q, tried, world, now, k).entries[o]);
  }

  /** The batch's next turn goes to the first of those still ahead. */
  lemma NextAhead(q: Queue, tried: seq<nat>, world: World, now: Time, b: nat, order: seq<nat>, k: nat, i: nat, t: Queue)
    requires Sound(q) && Distinct(tried) && InOrder(q, tried) && FirstCome(q, tried, world, now) && KeysDiffer(q, b)
    requires Ahead(q, b, order) && Aligned(q, tried, world, now, b, order, k, i, t) && TurnOf(q, tried, b, k)
    ensures i < |order| && order[i] == tried[k]
  {
    var e := tried[k];
    assert Waits(q, e) && e in order && e !in tried[..k];
    var m := Behind(order, i, e);
    StillAhead(q, tried, world, now, b, order, k, order[i]);
    assert Before(q.entries[e], q.entries[order[i]]);
  }

  lemma Behind(order: seq<nat>, i: nat, e: nat) returns (m: nat)
    requires Distinct(order) && i <= |order| && e in order && e !in order[..i]
    ensures i <= m < |order| && order[m] == e && order[i] !in order[..i]
  {
    assert order == order[..i] + order[i..];
    assert e in order[i..];
    var j :| 0 <= j < |order| - i && order[i..][j] == e;
    m := i + j;
  }

  /** The state foreseen after the k-th turn, and how far down the order it goes. */
  lemma AlignedOn(q: Queue, tried: seq<nat>, world: World, now: Time, b: nat, order: seq<nat>, k: nat, i: nat, t: Queue)
    requires Sound(q) && Distinct(tried) && InOrder(q, tried) && FirstCome(q, tried, world, now) && KeysDiffer(q, b)
    requires Ahead(q, b, order) && Aligned(q, tried, world, now, b, order, k, i, t) && TurnOf(q, tried, b, k)
    requires Told(q, tried, world, now, k).NotYet? || Told(q, tried, world, now, k).Abandoned?
    requires Runs(At(q, tried, world, now, k + 1), b)
    ensures i < |order| && order[i] == tried[k] && tried[k] < |t.entries|
    ensures Aligned(q, tried, world, now, b, order, k + 1, i + 1,
        if Told(q, tried, world, now, k).NotYet? then t else CalledOffAt(t, tried[k]))
  {
    var e, s := tried[k], At(q, tried, world, now, k);
    NextAhead(q, tried, world, now, b, order, k, i, t);
    AtFollows(q, tried, world, now, k);
    InItsBatch(q, tried, world, now, k, k);
    WaitsForTurn(q, tried, world, now, k, k);
    NextTurn(q, tried, world, now, k);
    TurnAgrees(s, t, b, e, Told(q, tried, world, now, k), now);
    OneMore(tried, k);
    OneMore(order, i);
  }

  lemma OneMore(xs: seq<nat>, k: nat)
    requires k < |xs|
    ensures forall x :: x in xs[..k + 1] <==> x in xs[..k] || x == xs[k]
  {
    assert xs[..k + 1] == xs[..k] + [xs[k]];
  }

  /** A turn of another batch changes nothing of what is foreseen. */
  lemma AlignedPast(q: Queue, tried: seq<nat>, world: World, now: Time, b: nat, order: seq<nat>, k: nat, i: nat,
      t: Queue)
    requires Sound(q) && InOrder(q, tried) && Ahead(q, b, order) && Aligned(q, tried, world, now, b, order, k, i, t)
    requires k < |tried| && !TurnOf(q, tried, b, k)
    ensures Aligned(q, tried, world, now, b, order, k + 1, i, t)
  {
    var e, s := tried[k], At(q, tried, world, now, k);
    assert Waits(q, e) && e !in order;
    InItsBatch(q, tried, world, now, k, k);
    AtFollows(q, tried, world, now, k);
    NextTurn(q, tried, world, now, k);
    OneMore(tried, k);
    hide At, Told, Sound, Admit, InOrder;
    OtherTurnAgrees(s, t, b, e, Told(q, tried, world, now, k), now);
  }

  lemma OtherTurnAgrees(s: Queue, t: Queue, b: nat, e: nat, answer: Answer, now: Time)
    requires Sound(s) && Agree(s, t, b) && Runs(s, b) && e < |s.entries| && s.entries[e].batch != b
    ensures Agree(Admit(s, e, answer, now), t, b) && Runs(Admit(s, e, answer, now), b)
  {
    OtherTurnSpares(s, e, answer, now, b);
    OthersStayOut(s, e, answer, now, b);
    hide Admit, Sound;
  }

  lemma OthersStayOut(s: Queue, e: nat, answer: Answer, now: Time, b: nat)
    requires Sound(s) && e < |s.entries| && s.entries[e].batch != b
    ensures var r := Admit(s, e, answer, now);
            |r.entries| == |s.entries|
            && forall i | 0 <= i < |s.entries| && s.entries[i].batch != b :: r.entries[i].batch != b
  {
    AdmitTakesOut(s, e, answer, now);
    hide Admit, Sound;
    assert forall i | 0 <= i < |s.entries| :: Evolves(s.entries[i], Admit(s, e, answer, now).entries[i]);
  }

  // ----- foreseen and found

  /** No session started in a turn of the batch had ended by the time its entry named it. */
  ghost predicate NoneEndsAtOnce(q: Queue, tried: seq<nat>, world: World, now: Time, b: nat)
    requires Linked(q)
  {
    forall k: nat | TurnOf(q, tried, b, k) && Runs(At(q, tried, world, now, k), b) ::
      var answer := Told(q, tried, world, now, k); answer.Launched? ==> answer.ended.None?
  }

  lemma OrderHead(order: seq<nat>, i: nat)
    requires i < |order|
    ensures order[i..] != [] && order[i..][0] == order[i] && order[i..][1..] == order[i + 1..]
  {
  }

  /** A pass in queue order, and the batch's turns as they lie ahead of it. */
  ghost predicate Fair(q: Queue, tried: seq<nat>, world: World, now: Time, b: nat, order: seq<nat>) {
    && Sound(q) && Distinct(tried) && InOrder(q, tried) && FirstCome(q, tried, world, now)
    && KeysDiffer(q, b) && Ahead(q, b, order)
  }

  /** Nobody of the batch starts from the k-th turn on, and the batch runs on. */
  ghost predicate OnlyWaits(q: Queue, tried: seq<nat>, world: World, now: Time, b: nat, k: nat)
    requires Linked(q)
  {
    && (forall m: nat | k <= m <= |tried| :: Runs(At(q, tried, world, now, m), b))
    && (forall m: nat | k <= m && TurnOf(q, tried, b, m) ::
          Told(q, tried, world, now, m).NotYet? || Told(q, tried, world, now, m).Abandoned?)
  }

  /** At the end of a finished pass nobody is left ahead. */
  lemma NobodyAhead(q: Queue, tried: seq<nat>, world: World, now: Time, b: nat, order: seq<nat>, i: nat, t: Queue)
    requires Fair(q, tried, world, now, b, order) && Aligned(q, tried, world, now, b, order, |tried|, i, t)
    requires forall e: nat | Waits(At(q, tried, world, now, |tried|), e) :: e in tried
    ensures i == |order|
  {
    if i < |order| {
      var o := order[i];
      assert o !in order[..i] && tried[..|tried|] == tried;
      StillAhead(q, tried, world, now, b, order, |tried|, o);
    }
  }

  lemma TurnForeseen(q: Queue, tried: seq<nat>, wires: Wires, decide: Deciding, now: Time, b: nat, order: seq<nat>,
      k: nat, i: nat, t: Queue)
    requires var world := Ask(Standstill(wires), decide);
      Fair(q, tried, world, now, b, order) && Aligned(q, tried, world, now, b, order, k, i, t) && TurnOf(q, tried, b, k)
    ensures tried[k] < |t.entries|
    ensures var told, standing := Told(q, tried, Ask(Standstill(wires), decide), now, k),
        StandingAt(t, tried[k], wires);
      && (standing.WaitingOn? <==> told.NotYet?) && (standing.AbandonedBy? <==> told.Abandoned?)
  {
    var e, s := tried[k], At(q, tried, Ask(Standstill(wires), decide), now, k);
    assert Waits(q, e);
    InItsBatch(q, tried, Ask(Standstill(wires), decide), now, k, k);
    AnswerForeseen(s, t, b, e, wires, decide(s, e));
  }

  /** If a pass tells everybody of the batch to wait or that it cannot run, that is what was foreseen. */
  lemma {:induction false} FoundIsForeseen(q: Queue, tried: seq<nat>, wires: Wires, decide: Deciding, now: Time, b: nat,
      order: seq<nat>, k: nat, i: nat, t: Queue)
    requires var world := Ask(Standstill(wires), decide);
      && Fair(q, tried, world, now, b, order) && OnlyWaits(q, tried, world, now, b, k)
      && (forall e: nat | Waits(At(q, tried, world, now, |tried|), e) :: e in tried)
      && Aligned(q, tried, world, now, b, order, k, i, t)
    requires forall j | 0 <= j < |order| :: order[j] < |t.entries|
    ensures var world, waiters := Ask(Standstill(wires), decide), Waiters(t, order[i..], wires);
      waiters.Some? && forall m: nat | k <= m && TurnOf(q, tried, b, m) && Told(q, tried, world, now, m).NotYet? ::
        tried[m] in waiters.value
    decreases |tried| - k
  {
    var world := Ask(Standstill(wires), decide);
    if k == |tried| {
      NobodyAhead(q, tried, world, now, b, order, i, t);
    } else if !TurnOf(q, tried, b, k) {
      AlignedPast(q, tried, world, now, b, order, k, i, t);
      hide Ask, Told, At, Fair, Aligned, Waiters;
      FoundIsForeseen(q, tried, wires, decide, now, b, order, k + 1, i, t);
    } else {
      TurnForeseen(q, tried, wires, decide, now, b, order, k, i, t);
      AlignedOn(q, tried, world, now, b, order, k, i, t);
      OrderHead(order, i);
      hide Ask, Told, At, Fair, Aligned, StandingAt;
      var next := if Told(q, tried, world, now, k).NotYet? then t else CalledOffAt(t, tried[k]);
      FoundIsForeseen(q, tried, wires, decide, now, b, order, k + 1, i + 1, next);
    }
  }

  /** Somebody of the batch waits, and if it is yet to have its turn, is foreseen to wait on. */
  ghost predicate Keeper(q: Queue, tried: seq<nat>, world: World, now: Time, b: nat, k: nat, ahead: seq<nat>,
      waiters: set<nat>, g: nat)
    requires Linked(q) && k <= |tried|
  {
    var s := At(q, tried, world, now, k);
    Waits(s, g) && s.entries[g].batch == b && (g in ahead ==> g in waiters)
  }

  /** The pass has gone as foreseen so far, nobody of the batch is foreseen to start, and `g` is foreseen to wait on. */
  ghost predicate OnCourse(q: Queue, tried: seq<nat>, world: World, now: Time, wires: Wires, b: nat, order: seq<nat>,
      k: nat, i: nat, t: Queue, g: nat)
  {
    && Fair(q, tried, world, now, b, order) && Aligned(q, tried, world, now, b, order, k, i, t)
    && (forall j | 0 <= j < |order| :: order[j] < |t.entries|)
    && var waiters := Waiters(t, order[i..], wires);
       waiters.Some? && Keeper(q, tried, world, now, b, k, order[i..], waiters.value, g)
  }

  /**
   * What was foreseen is what a pass then finds: nobody of the batch starts, and the batch runs on with somebody
   * waiting.
   */
  lemma {:induction false} ForeseenIsFound(q: Queue, tried: seq<nat>, wires: Wires, decide: Deciding, now: Time, b: nat,
      order: seq<nat>, k: nat, i: nat, t: Queue, g: nat)
    requires OnCourse(q, tried, Ask(Standstill(wires), decide), now, wires, b, order, k, i, t, g)
    ensures Linked(q) && k <= |tried|
    ensures var world := Ask(Standstill(wires), decide);
      && OnlyWaits(q, tried, world, now, b, k) && Waits(At(q, tried, world, now, |tried|), g)
      && At(q, tried, world, now, |tried|).entries[g].batch == b
    decreases |tried| - k
  {
    var world := Ask(Standstill(wires), decide);
    hide Ask, OnlyWaits, At;
    CourseInTable(q, tried, world, now, wires, b, order, k, i, t, g);
    if k == |tried| {
      CourseEnds(q, tried, world, now, wires, b, order, i, t, g);
    } else {
      var i', t' := TurnIsFound(q, tried, wires, decide, now, b, order, k, i, t, g);
      hide OnCourse, Linked;
      ForeseenIsFound(q, tried, wires, decide, now, b, order, k + 1, i', t', g);
      OneTurnMore(q, tried, world, now, b, k);
    }
  }

  lemma CourseInTable(q: Queue, tried: seq<nat>, world: World, now: Time, wires: Wires, b: nat, order: seq<nat>,
      k: nat, i: nat, t: Queue, g: nat)
    requires OnCourse(q, tried, world, now, wires, b, order, k, i, t, g)
    ensures Linked(q) && k <= |tried|
  {
    hide At, RowSound, Fits, BatchSound, FirstCome, KeysDiffer, InOrder, Agree, Waiters, Keeper;
  }

  lemma CourseEnds(q: Queue, tried: seq<nat>, world: World, now: Time, wires: Wires, b: nat, order: seq<nat>,
      i: nat, t: Queue, g: nat)
    requires OnCourse(q, tried, world, now, wires, b, order, |tried|, i, t, g)
    ensures Linked(q) && OnlyWaits(q, tried, world, now, b, |tried|)
    ensures Waits(At(q, tried, world, now, |tried|), g) && At(q, tried, world, now, |tried|).entries[g].batch == b
  {
    hide At, RowSound, Fits, BatchSound, FirstCome, KeysDiffer, InOrder, Agree, Waiters;
  }

  lemma OneTurnMore(q: Queue, tried: seq<nat>, world: World, now: Time, b: nat, k: nat)
    requires Linked(q) && k < |tried| && OnlyWaits(q, tried, world, now, b, k + 1)
        && Runs(At(q, tried, world, now, k), b)
    requires TurnOf(q, tried, b, k) ==>
      Told(q, tried, world, now, k).NotYet? || Told(q, tried, world, now, k).Abandoned?
    ensures OnlyWaits(q, tried, world, now, b, k)
  {
    hide At, Told;
  }

  /** The first of those ahead is not ready, and the others are foreseen as they will be after its turn. */
  lemma WaitersHead(t: Queue, order: seq<nat>, i: nat, wires: Wires)
    requires Distinct(order) && i < |order| && forall j | 0 <= j < |order| :: order[j] < |t.entries|
    requires Waiters(t, order[i..], wires).Some?
    ensures var standing, all := StandingAt(t, order[i], wires), Waiters(t, order[i..], wires).value;
      && !standing.Ready? && (order[i] in all ==> standing.WaitingOn?)
      && var rest := Waiters(if standing.WaitingOn? then t else CalledOffAt(t, order[i]), order[i + 1..], wires);
         rest.Some? && all - {order[i]} <= rest.value
  {
    OrderHead(order, i);
    assert order[i] !in order[i + 1..];
    hide StandingAt, CalledOffAt;
  }

  lemma TurnIsFound(q: Queue, tried: seq<nat>, wires: Wires, decide: Deciding, now: Time, b: nat, order: seq<nat>,
      k: nat, i: nat, t: Queue, g: nat) returns (i': nat, t': Queue)
    requires OnCourse(q, tried, Ask(Standstill(wires), decide), now, wires, b, order, k, i, t, g) && k < |tried|
    ensures OnCourse(q, tried, Ask(Standstill(wires), decide), now, wires, b, order, k + 1, i', t', g)
    ensures var world := Ask(Standstill(wires), decide);
      && Runs(At(q, tried, world, now, k), b)
      && (TurnOf(q, tried, b, k) ==>
            Told(q, tried, world, now, k).NotYet? || Told(q, tried, world, now, k).Abandoned?)
  {
    if TurnOf(q, tried, b, k) {
      i' := i + 1;
      t' := OwnTurnIsFound(q, tried, wires, decide, now, b, order, k, i, t, g);
    } else {
      i', t' := i, t;
      var world := Ask(Standstill(wires), decide);
      KeeperStays(q, tried, world, now, b, k, g);
      AlignedPast(q, tried, world, now, b, order, k, i, t);
      hide Ask, Told, Fair, Waiters, At;
    }
  }

  lemma OwnTurnIsFound(q: Queue, tried: seq<nat>, wires: Wires, decide: Deciding, now: Time, b: nat, order: seq<nat>,
      k: nat, i: nat, t: Queue, g: nat) returns (t': Queue)
    requires OnCourse(q, tried, Ask(Standstill(wires), decide), now, wires, b, order, k, i, t, g)
        && TurnOf(q, tried, b, k)
    ensures OnCourse(q, tried, Ask(Standstill(wires), decide), now, wires, b, order, k + 1, i + 1, t', g)
    ensures var told := Told(q, tried, Ask(Standstill(wires), decide), now, k); told.NotYet? || told.Abandoned?
  {
    var world := Ask(Standstill(wires), decide);
    NextAhead(q, tried, world, now, b, order, k, i, t);
    TurnForeseen(q, tried, wires, decide, now, b, order, k, i, t);
    WaitersHead(t, order, i, wires);
    OrderHead(order, i);
    hide Ask, Told, StandingAt, Waiters, At, RowSound, Fits, BatchSound, FirstCome, KeysDiffer, Agree;
    KeeperStays(q, tried, world, now, b, k, g);
    t' := if Told(q, tried, world, now, k).NotYet? then t else CalledOffAt(t, tried[k]);
    AlignedOn(q, tried, world, now, b, order, k, i, t);
    hide Aligned, Fair, InOrder, Linked;
    KeeperOn(order, i, g);
  }

  lemma KeeperOn(order: seq<nat>, i: nat, g: nat)
    requires Distinct(order) && i < |order|
    ensures g in order[i + 1..] ==> g in order[i..] && g != order[i]
  {
    assert order[i..] == [order[i]] + order[i + 1..];
  }

  /** A turn that starts nobody of the batch leaves its other entries waiting, and itself if it is told to. */
  lemma KeeperStays(q: Queue, tried: seq<nat>, world: World, now: Time, b: nat, k: nat, g: nat)
    requires Sound(q) && Distinct(tried) && InOrder(q, tried) && k < |tried|
    requires var s := At(q, tried, world, now, k); Runs(s, b) && Waits(s, g) && s.entries[g].batch == b
    requires TurnOf(q, tried, b, k) ==>
      var told := Told(q, tried, world, now, k); told.NotYet? || (told.Abandoned? && g != tried[k])
    ensures var s := At(q, tried, world, now, k + 1); Runs(s, b) && Waits(s, g) && s.entries[g].batch == b
  {
    var e, s := tried[k], At(q, tried, world, now, k);
    var told := Told(q, tried, world, now, k);
    AtFollows(q, tried, world, now, k);
    AtFollows(q, tried, world, now, k + 1);
    InItsBatch(q, tried, world, now, k, k);
    NextTurn(q, tried, world, now, k);
    hide AdmitAll, Admit, RowSound, Fits, BatchSound;
    if !TurnOf(q, tried, b, k) {
      OtherTurnSpares(s, e, told, now, b);
    } else {
      WaitsForTurn(q, tried, world, now, k, k);
      if told.NotYet? {
        NotYetStays(s, e, now);
      } else {
        SpentKeepsRunning(s, e, told, now, g);
      }
    }
  }

  // ----- read off beforehand

  /** The rows and the wiring say it: nobody of the batch is ready in turn, and somebody is told to wait. */
  predicate Doomed(q: Queue, b: nat, wires: Wires)
    requires forall i | 0 <= i < |TurnsAhead(q, b)| :: TurnsAhead(q, b)[i] < |q.entries|
  {
    var waiters := Waiters(q, TurnsAhead(q, b), wires);
    waiters.Some? && waiters.value != {}
  }

  lemma TurnsAreInTable(q: Queue, b: nat)
    requires Linked(q)
    ensures forall i | 0 <= i < |TurnsAhead(q, b)| :: TurnsAhead(q, b)[i] < |q.entries|
  {
    TurnsAreAhead(q, b);
    hide TurnsAhead;
    assert forall i | 0 <= i < |TurnsAhead(q, b)| :: Waits(q, TurnsAhead(q, b)[i]);
  }

  lemma AlignedAtFirst(q: Queue, tried: seq<nat>, world: World, now: Time, b: nat, order: seq<nat>)
    requires Linked(q) && Runs(q, b)
    ensures Aligned(q, tried, world, now, b, order, 0, 0, q)
  {
    AtEnds(q, tried, world, now);
  }

  lemma DoomedOnCourse(q: Queue, tried: seq<nat>, world: World, now: Time, wires: Wires, b: nat) returns (g: nat)
    requires Sound(q) && Distinct(tried) && InOrder(q, tried) && FirstCome(q, tried, world, now) && KeysDiffer(q, b)
    requires forall i | 0 <= i < |TurnsAhead(q, b)| :: TurnsAhead(q, b)[i] < |q.entries|
    requires Runs(q, b) && Doomed(q, b, wires)
    ensures OnCourse(q, tried, world, now, wires, b, TurnsAhead(q, b), 0, 0, q, g)
  {
    var order := TurnsAhead(q, b);
    TurnsAreAhead(q, b);
    AlignedAtFirst(q, tried, world, now, b, order);
    AtEnds(q, tried, world, now);
    hide TurnsAhead, At, FirstCome, KeysDiffer, RowSound, Fits, BatchSound, Aligned;
    g :| g in Waiters(q, order, wires).value;
    assert order[0..] == order && g in order;
  }

  lemma DoomedStrands(q: Queue, tried: seq<nat>, wires: Wires, decide: Deciding, now: Time, r: Queue, b: nat)
    requires var world := Ask(Standstill(wires), decide);
      Drained(q, tried, world, now, r) && FirstCome(q, tried, world, now) && KeysDiffer(q, b)
    requires forall i | 0 <= i < |TurnsAhead(q, b)| :: TurnsAhead(q, b)[i] < |q.entries|
    requires Runs(q, b) && !Alive(q, b) && Doomed(q, b, wires)
    ensures Stranded(r, b)
  {
    var world := Ask(Standstill(wires), decide);
    hide TurnsAhead, FirstCome, KeysDiffer, Doomed, Alive;
    var g := DoomedOnCourse(q, tried, world, now, wires, b);
    ForeseenIsFound(q, tried, wires, decide, now, b, TurnsAhead(q, b), 0, 0, q, g);
    AtEnds(q, tried, world, now);
    hide Ask, Told, At, RowSound, Fits, BatchSound, InOrder, HeldBack, AdmitAll, OnCourse;
    assert Waits(r, g) && Runs(r, b);
    OnlyWaitsStrands(q, tried, world, now, r, b, g);
  }

  lemma OnlyWaitsStrands(q: Queue, tried: seq<nat>, world: World, now: Time, r: Queue, b: nat, g: nat)
    requires Drained(q, tried, world, now, r) && Runs(q, b) && !Alive(q, b) && OnlyWaits(q, tried, world, now, b, 0)
    requires Runs(r, b) && Waits(r, g) && r.entries[g].batch == b
    ensures Stranded(r, b)
  {
    PassFacts(q, tried, world, now, r, b);
    hide Told, At, AdmitAll, HeldBack, InOrder, RowSound, Fits, BatchSound, Alive, Distinct;
    var w: nat :| w < |tried| && tried[w] == g;
    assert TurnOf(q, tried, b, w);
    WaitingWasTold(q, tried, world, now, r, b, w);
    assert ToldOnlyToWait(q, tried, world, now, b);
    StrandedIf(q, tried, world, now, r, b);
  }

  lemma NobodyStarted(q: Queue, tried: seq<nat>, world: World, now: Time, b: nat, w: nat)
    requires Sound(q) && Distinct(tried) && InOrder(q, tried) && Runs(q, b) && ToldOnlyToWait(q, tried, world, now, b)
    requires TurnOf(q, tried, b, w) && Told(q, tried, world, now, w).NotYet? && NoneEndsAtOnce(q, tried, world, now, b)
    ensures OnlyWaits(q, tried, world, now, b, 0)
  {
    hide At, Told, RowSound, Fits, BatchSound;
    forall m: nat | m <= |tried|
      ensures Runs(At(q, tried, world, now, m), b)
    {
      StillRuns(q, tried, world, now, b, w, m);
    }
  }

  lemma StrandedWasDoomed(q: Queue, tried: seq<nat>, wires: Wires, decide: Deciding, now: Time, r: Queue, b: nat)
    requires var world := Ask(Standstill(wires), decide);
      && Drained(q, tried, world, now, r) && FirstCome(q, tried, world, now) && KeysDiffer(q, b)
      && NoneEndsAtOnce(q, tried, world, now, b)
    requires forall i | 0 <= i < |TurnsAhead(q, b)| :: TurnsAhead(q, b)[i] < |q.entries|
    requires Stranded(r, b)
    ensures Doomed(q, b, wires)
  {
    var world, order := Ask(Standstill(wires), decide), TurnsAhead(q, b);
    TurnsAreAhead(q, b);
    StrandedIff(q, tried, world, now, r, b);
    AtEnds(q, tried, world, now);
    var w: nat :| TurnOf(q, tried, b, w) && Told(q, tried, world, now, w).NotYet?;
    AlignedAtFirst(q, tried, world, now, b, order);
    assert order[0..] == order;
    hide Ask, Told, At, TurnsAhead, FirstCome, Stranded, Alive, RowSound, Fits, BatchSound, HeldBack, KeysDiffer;
    NobodyStarted(q, tried, world, now, b, w);
    FoundIsForeseen(q, tried, wires, decide, now, b, order, 0, 0, q);
  }

  /**
   * Exactly when a drain will strand a batch, told from the rows and the wiring before it begins: the batch runs,
   * nothing of it is alive, and going through those of it that wait, nobody is ready and somebody waits for another.
   */
  lemma StrandedIffDoomed(q: Queue, tried: seq<nat>, wires: Wires, decide: Deciding, now: Time, r: Queue, b: nat)
    requires var world := Ask(Standstill(wires), decide);
      && Drained(q, tried, world, now, r) && FirstCome(q, tried, world, now) && KeysDiffer(q, b)
      && NoneEndsAtOnce(q, tried, world, now, b)
    ensures forall i | 0 <= i < |TurnsAhead(q, b)| :: TurnsAhead(q, b)[i] < |q.entries|
    ensures Stranded(r, b) <==> Runs(q, b) && !Alive(q, b) && Doomed(q, b, wires)
  {
    TurnsAreInTable(q, b);
    StrandedIff(q, tried, Ask(Standstill(wires), decide), now, r, b);
    hide Stranded, Alive, Doomed, TurnsAhead, FirstCome, NoneEndsAtOnce, KeysDiffer, ToldOnlyToWait;
    if Stranded(r, b) {
      StrandedWasDoomed(q, tried, wires, decide, now, r, b);
    } else if Runs(q, b) && !Alive(q, b) && Doomed(q, b, wires) {
      DoomedStrands(q, tried, wires, decide, now, r, b);
    }
  }

  /** The entries of one scope have a position each. */
  lemma InitiatedKeysDiffer(q: Queue, key: nat, items: seq<Item>, now: Time)
    requires Linked(q) && Taken(q, Initiate(key, items, now))
    requires forall i, j | 0 <= i < j < |items| :: items[i].position != items[j].position
    ensures KeysDiffer(Next(q, Initiate(key, items, now)), |q.batches|)
  {
    NewRows(q, key, items, now);
    hide Next, Linked, Taken;
  }

  lemma NextKeepsKeysDiffer(q: Queue, step: Step, b: nat)
    requires Linked(q) && b < |q.batches| && KeysDiffer(q, b)
    ensures KeysDiffer(Next(q, step), b)
  {
    NextLinked(q, step);
    NoneJoins(q, step, b);
    var r := Next(q, step);
    hide Next;
    forall e, f | 0 <= e < |r.entries| && 0 <= f < |r.entries| && r.entries[e].batch == b && r.entries[f].batch == b
                  && Before(r.entries[e], r.entries[f]) && Before(r.entries[f], r.entries[e])
      ensures e == f
    {
      assert SameKey(q.entries[e], r.entries[e]) && SameKey(q.entries[f], r.entries[f]);
    }
  }

  lemma {:induction false} KeysDifferForEver(q: Queue, steps: seq<Step>, b: nat)
    requires Linked(q) && b < |q.batches| && KeysDiffer(q, b)
    ensures KeysDiffer(Run(q, steps), b)
    decreases |steps|
  {
    hide Next, KeysDiffer;
    if steps != [] {
      NextKeepsKeysDiffer(q, steps[0], b);
      NextLinked(q, steps[0]);
      KeysDifferForEver(Next(q, steps[0]), steps[1..], b);
    }
  }
}
