/**
 * The session host's translator: runtime events to observations, and which injections a turn consumed
 * (apps/session-host/src/observations.ts).
 */
module Observations {
  import opened Wrappers
  import opened Sorting

  type Time = int
  type InjectionId = nat

  datatype Injection = Injection(id: InjectionId, text: string)

  datatype EventUsage = EventUsage(input: int, output: int, cacheRead: int, cacheWrite: int, cost: real)

  datatype ContextUsage = ContextUsage(tokens: int, contextWindow: int)

  datatype TurnUsage = TurnUsage(
    inputTokens: int, outputTokens: int, cacheReadTokens: Option<int>, cacheWriteTokens: Option<int>,
    costUsd: Option<real>, contextWindow: Option<ContextUsage>)

  datatype Event =
    | TurnStart(queuedSteering: Option<seq<string>>)
    | TurnEnd(usage: Option<EventUsage>, contextUsage: Option<ContextUsage>)
    | TextDelta(text: string)
    | ThinkingDelta(text: string)
    | ToolExecutionStart(callId: string, toolName: string)
    | ToolExecutionEnd(callId: string, isError: Option<bool>)
    | AutoCompactionStart
    | AutoCompactionEnd
    | Notice(isErrorLevel: bool, source: Option<string>, message: string)
    | OtherEvent

  datatype Observation =
    | TurnStarted(turn: nat, at: Time)
    | TurnEnded(turn: nat, usage: TurnUsage, at: Time)
    | InjectionDelivered(id: InjectionId, at: Time)
    | InjectionRefused(id: InjectionId, reason: string, at: Time)
    | OutputDelta(text: string, at: Time)
    | ReasoningDelta(text: string, at: Time)
    | ToolStarted(callId: string, toolName: string, at: Time)
    | ToolFinished(callId: string, isError: bool, at: Time)
    | CompactionStarted(at: Time)
    | CompactionFinished(at: Time)
    | RuntimeError(message: string, fatal: bool, at: Time)
    | RequestRaised(requestId: nat, at: Time)
    | RequestSettled(requestId: nat, outcome: bool, at: Time)
    | SessionEnded(at: Time)

  datatype Translator = Translator(turn: nat, turnOpen: bool, pending: seq<Injection>)

  const IDLE := Translator(0, false, [])

  // ----- which injections are still in the queue

  function CountText(pending: seq<Injection>, text: string): nat {
    if pending == [] then 0
    else CountText(pending[..|pending| - 1], text) + (if pending[|pending| - 1].text == text then 1 else 0)
  }

  /**
   * An injection is still queued when the queue holds more copies of its text than there are earlier injections with
   * that text.
   */
  predicate StillQueued(pending: seq<Injection>, queue: seq<string>, i: nat)
    requires i < |pending|
  {
    CountText(pending[..i], pending[i].text) < multiset(queue)[pending[i].text]
  }

  function Remaining(pending: seq<Injection>, queue: seq<string>): seq<Injection>
    decreases |pending|
  {
    if pending == [] then []
    else
      var n := |pending| - 1;
      var before := Remaining(pending[..n], queue);
      if StillQueued(pending, queue, n) then before + [pending[n]] else before
  }

  function Delivered(pending: seq<Injection>, queue: seq<string>): seq<InjectionId>
    decreases |pending|
  {
    if pending == [] then []
    else
      var n := |pending| - 1;
      var before := Delivered(pending[..n], queue);
      if StillQueued(pending, queue, n) then before else before + [pending[n].id]
  }

  function Ids(pending: seq<Injection>): (r: seq<InjectionId>)
    ensures |r| == |pending| && forall i | 0 <= i < |r| :: r[i] == pending[i].id
  {
    seq(|pending|, i requires 0 <= i < |pending| => pending[i].id)
  }

  // ----- one event

  function TurnUsageOf(usage: Option<EventUsage>, contextUsage: Option<ContextUsage>): TurnUsage {
    match usage
    case None => TurnUsage(0, 0, None, None, None, contextUsage)
    case Some(u) => TurnUsage(u.input, u.output, Some(u.cacheRead), Some(u.cacheWrite), Some(u.cost), contextUsage)
  }

  function QueueOf(queuedSteering: Option<seq<string>>): seq<string> {
    if queuedSteering.Some? then queuedSteering.value else []
  }

  function DeliveredAt(ids: seq<InjectionId>, at: Time): (r: seq<Observation>)
    ensures |r| == |ids| && forall i | 0 <= i < |r| :: r[i] == InjectionDelivered(ids[i], at)
  {
    seq(|ids|, i requires 0 <= i < |ids| => InjectionDelivered(ids[i], at))
  }

  function After(t: Translator, event: Event): Translator {
    match event
    case TurnStart(steering) => Translator(t.turn + 1, true, Remaining(t.pending, QueueOf(steering)))
    case TurnEnd(_, _) => t.(turnOpen := false)
    case _ => t
  }

  function Observed(t: Translator, event: Event, at: Time): seq<Observation> {
    match event
    case TurnStart(steering) => [TurnStarted(t.turn + 1, at)] + DeliveredAt(Delivered(t.pending, QueueOf(steering)), at)
    case TurnEnd(usage, contextUsage) =>
        if t.turnOpen then [TurnEnded(t.turn, TurnUsageOf(usage, contextUsage), at)] else []
    case TextDelta(text) => [OutputDelta(text, at)]
    case ThinkingDelta(text) => [ReasoningDelta(text, at)]
    case ToolExecutionStart(callId, toolName) => [ToolStarted(callId, toolName, at)]
    case ToolExecutionEnd(callId, isError) => [ToolFinished(callId, isError.Some? && isError.value, at)]
    case AutoCompactionStart => [CompactionStarted(at)]
    case AutoCompactionEnd => [CompactionFinished(at)]
    case Notice(isErrorLevel, source, message) =>
      if isErrorLevel then [RuntimeError(if source.Some? then source.value + ": " + message else message, false, at)]
          else []
    case OtherEvent => []
  }

  // ----- what the queue comparison keeps

  lemma CountTextAppend(pending: seq<Injection>, last: Injection, text: string)
    ensures CountText(pending + [last], text) == CountText(pending, text) + (if last.text == text then 1 else 0)
  {
    assert (pending + [last])[..|pending|] == pending;
  }

  /** For every text, as many injections remain as the queue still has room for, whatever the others do. */
  lemma {:induction false} RemainingCount(pending: seq<Injection>, queue: seq<string>, text: string)
    ensures var n := multiset(queue)[text];
        CountText(Remaining(pending, queue), text) == if CountText(pending, text) < n then CountText(pending, text)
        else n
    decreases |pending|
  {
    if pending != [] {
      var n := |pending| - 1;
      RemainingCount(pending[..n], queue, text);
      if StillQueued(pending, queue, n) {
        CountTextAppend(Remaining(pending[..n], queue), pending[n], text);
      }
    }
  }

  /** Every pending injection ends up on exactly one side. */
  lemma {:induction false} Partitions(pending: seq<Injection>, queue: seq<string>)
    ensures multiset(Ids(Remaining(pending, queue))) + multiset(Delivered(pending, queue)) == multiset(Ids(pending))
    decreases |pending|
  {
    if pending != [] {
      var n := |pending| - 1;
      var front, last := pending[..n], pending[n];
      Partitions(front, queue);
      assert Ids(pending) == Ids(front) + [last.id];
      IdsAppend(Remaining(front, queue), last);
      hide StillQueued;
      assert multiset(Ids(front) + [last.id]) == multiset(Ids(front)) + multiset{last.id};
    }
  }

  lemma IdsAppend(pending: seq<Injection>, last: Injection)
    ensures Ids(pending + [last]) == Ids(pending) + [last.id]
  {
  }

  function Without(pending: seq<Injection>, gone: set<InjectionId>): seq<Injection>
    decreases |pending|
  {
    if pending == [] then []
    else
      var n := |pending| - 1;
      var before := Without(pending[..n], gone);
      if pending[n].id in gone then before else before + [pending[n]]
  }

  function Only(pending: seq<Injection>, kept: set<InjectionId>): seq<Injection>
    decreases |pending|
  {
    if pending == [] then []
    else
      var n := |pending| - 1;
      var before := Only(pending[..n], kept);
      if pending[n].id in kept then before + [pending[n]] else before
  }

  lemma {:induction false} SplitBy(pending: seq<Injection>, ids: set<InjectionId>)
    ensures forall x :: x in Only(pending, ids) <==> x in pending && x.id in ids
    ensures forall x :: x in Without(pending, ids) <==> x in pending && x.id !in ids
    decreases |pending|
  {
    if pending != [] {
      var n := |pending| - 1;
      SplitBy(pending[..n], ids);
      assert pending == pending[..n] + [pending[n]];
    }
  }

  /**
   * Both sides keep the order the injections were accepted in: each is the pending list with the other side's ids left
   * out.
   */
  lemma {:induction false} SidesInOrder(pending: seq<Injection>, queue: seq<string>, gone: set<InjectionId>)
    requires forall i | 0 <= i < |pending| :: pending[i].id in gone <==> !StillQueued(pending, queue, i)
    ensures Remaining(pending, queue) == Without(pending, gone)
    ensures Delivered(pending, queue) == Ids(Only(pending, gone))
    decreases |pending|
  {
    if pending != [] {
      var n := |pending| - 1;
      var front := pending[..n];
      forall i | 0 <= i < n
        ensures StillQueued(front, queue, i) <==> StillQueued(pending, queue, i)
      {
        assert front[..i] == pending[..i];
      }
      hide StillQueued;
      SidesInOrder(front, queue, gone);
      IdsAppend(Only(front, gone), pending[n]);
    }
  }

  /** The ids whose copy of the text the queue no longer holds. */
  ghost function Unqueued(pending: seq<Injection>, queue: seq<string>): set<InjectionId> {
    set i | 0 <= i < |pending| && !StillQueued(pending, queue, i) :: pending[i].id
  }

  /**
   * With distinct ids, exactly the injections the queue no longer holds are delivered, in order, and the others remain,
   * in order.
   */
  lemma DeliversExactlyUnqueued(pending: seq<Injection>, queue: seq<string>)
    requires Distinct(Ids(pending))
    ensures Remaining(pending, queue) == Without(pending, Unqueued(pending, queue))
    ensures Delivered(pending, queue) == Ids(Only(pending, Unqueued(pending, queue)))
    ensures forall i | 0 <= i < |pending| ::
        pending[i].id in Unqueued(pending, queue) <==> !StillQueued(pending, queue, i)
  {
    forall i | 0 <= i < |pending|
      ensures pending[i].id in Unqueued(pending, queue) <==> !StillQueued(pending, queue, i)
    {
      forall k | 0 <= k < |pending| && pending[k].id == pending[i].id
        ensures k == i
      {
        assert Ids(pending)[k] == Ids(pending)[i];
      }
    }
    SidesInOrder(pending, queue, Unqueued(pending, queue));
  }

  // ----- whole histories of injections

  datatype HostStep = Inject(id: InjectionId, text: string) | Reject(id: InjectionId) | Event(event: Event)

  function Next(t: Translator, step: HostStep): Translator {
    match step
    case Inject(id, text) => t.(pending := t.pending + [Injection(id, text)])
    case Reject(id) => t.(pending := Without(t.pending, {id}))
    case Event(event) => After(t, event)
  }

  function Run(t: Translator, steps: seq<HostStep>): Translator
    decreases |steps|
  {
    if steps == [] then t else Run(Next(t, steps[0]), steps[1..])
  }

  function DeliveredBy(t: Translator, step: HostStep): seq<InjectionId> {
    if step.Event? && step.event.TurnStart? then Delivered(t.pending, QueueOf(step.event.queuedSteering)) else []
  }

  function DroppedBy(t: Translator, step: HostStep): seq<InjectionId> {
    if step.Reject? then Ids(Only(t.pending, {step.id})) else []
  }

  function InjectedBy(step: HostStep): seq<InjectionId> {
    if step.Inject? then [step.id] else []
  }

  /** Every id reported delivered over a run, in order. */
  function Deliveries(t: Translator, steps: seq<HostStep>): seq<InjectionId>
    decreases |steps|
  {
    if steps == [] then [] else DeliveredBy(t, steps[0]) + Deliveries(Next(t, steps[0]), steps[1..])
  }

  /** Every id dropped because its injection was refused while still pending. */
  function Dropped(t: Translator, steps: seq<HostStep>): seq<InjectionId>
    decreases |steps|
  {
    if steps == [] then [] else DroppedBy(t, steps[0]) + Dropped(Next(t, steps[0]), steps[1..])
  }

  function Injected(steps: seq<HostStep>): seq<InjectionId>
    decreases |steps|
  {
    if steps == [] then [] else InjectedBy(steps[0]) + Injected(steps[1..])
  }

  function Count(ids: seq<InjectionId>, x: InjectionId): nat {
    multiset(ids)[x]
  }

  lemma CountJoin(a: seq<InjectionId>, b: seq<InjectionId>, x: InjectionId)
    ensures Count(a + b, x) == Count(a, x) + Count(b, x)
  {
  }

  lemma {:induction false} SplitCounts(pending: seq<Injection>, ids: set<InjectionId>, x: InjectionId)
    ensures Count(Ids(pending), x) == Count(Ids(Without(pending, ids)), x) + Count(Ids(Only(pending, ids)), x)
    decreases |pending|
  {
    if pending != [] {
      var n := |pending| - 1;
      var front, last := pending[..n], pending[n];
      SplitCounts(front, ids, x);
      assert pending == front + [last];
      IdsAppend(front, last);
      IdsAppend(Without(front, ids), last);
      IdsAppend(Only(front, ids), last);
      CountJoin(Ids(front), [last.id], x);
      CountJoin(Ids(Without(front, ids)), [last.id], x);
      CountJoin(Ids(Only(front, ids)), [last.id], x);
      hide Count, Ids;
    }
  }

  lemma StepConserves(t: Translator, step: HostStep, x: InjectionId)
    ensures Count(Ids(Next(t, step).pending), x) + Count(DeliveredBy(t, step), x) + Count(DroppedBy(t, step), x)
         == Count(Ids(t.pending), x) + Count(InjectedBy(step), x)
  {
    match step
    case Inject(id, text) => IdsAppend(t.pending, Injection(id, text));
    case Reject(id) => SplitCounts(t.pending, {id}, x);
    case Event(event) =>
      if event.TurnStart? {
        Partitions(t.pending, QueueOf(event.queuedSteering));
      }
  }

  /**
   * Every injection ever accepted is, at the end of any history, exactly one of: delivered, refused, or still pending.
   */
  lemma {:induction false} InjectionsConserved(t: Translator, steps: seq<HostStep>, x: InjectionId)
    ensures Count(Ids(Run(t, steps).pending), x) + Count(Deliveries(t, steps), x) + Count(Dropped(t, steps), x)
         == Count(Ids(t.pending), x) + Count(Injected(steps), x)
    decreases |steps|
  {
    if steps != [] {
      StepConserves(t, steps[0], x);
      var t', rest := Next(t, steps[0]), steps[1..];
      InjectionsConserved(t', rest, x);
      CountJoin(DeliveredBy(t, steps[0]), Deliveries(t', rest), x);
      CountJoin(DroppedBy(t, steps[0]), Dropped(t', rest), x);
      CountJoin(InjectedBy(steps[0]), Injected(rest), x);
      hide Next, DeliveredBy, DroppedBy, InjectedBy, Count;
    }
  }

  lemma {:induction false} CountBoundsDistinct(ids: seq<InjectionId>)
    requires forall x :: Count(ids, x) <= 1
    ensures Distinct(ids)
  {
    if ids != [] {
      var rest := ids[1..];
      assert ids == [ids[0]] + rest;
      forall x
        ensures Count(ids, x) == Count(rest, x) + if x == ids[0] then 1 else 0
      {
        CountJoin([ids[0]], rest, x);
      }
      CountBoundsDistinct(rest);
      assert Count(rest, ids[0]) == 0;
    }
  }

  /** With distinct ids, no injection is ever reported delivered twice. */
  lemma DeliveredAtMostOnce(steps: seq<HostStep>)
    requires Distinct(Injected(steps))
    ensures Distinct(Deliveries(IDLE, steps))
  {
    forall x
      ensures Count(Deliveries(IDLE, steps), x) <= 1
    {
      InjectionsConserved(IDLE, steps, x);
      DistinctCount(Injected(steps), x);
    }
    CountBoundsDistinct(Deliveries(IDLE, steps));
  }

  /** Once an injection has been refused, no later turn reports it delivered, whatever was queued meanwhile. */
  lemma RefusedNeverDelivered(t: Translator, id: InjectionId, rest: seq<HostStep>)
    requires id !in Injected(rest)
    ensures id !in Deliveries(Next(t, Reject(id)), rest)
  {
    var after := Next(t, Reject(id));
    InjectionsConserved(after, rest, id);
    SplitBy(t.pending, {id});
    assert forall k | 0 <= k < |after.pending| :: after.pending[k] in after.pending && Ids(after.pending)[k] != id;
    assert Count(Ids(after.pending), id) == 0;
    assert id in multiset(Deliveries(after, rest)) <==> Count(Deliveries(after, rest), id) > 0;
  }

  /**
   * Of injections with the same text, those accepted first wait longest: one that is still queued keeps all before it
   * queued.
   */
  lemma FirstStay(pending: seq<Injection>, queue: seq<string>, i: nat, j: nat)
    requires i < j < |pending| && pending[i].text == pending[j].text && StillQueued(pending, queue, j)
    ensures StillQueued(pending, queue, i)
        && CountText(pending[..j], pending[j].text) < multiset(queue)[pending[j].text]
  {
    assert pending[..i] == pending[..j][..i];
    CountGrows(pending[..j], i, pending[i].text);
  }

  lemma {:induction false} CountGrows(pending: seq<Injection>, n: nat, text: string)
    requires n <= |pending|
    ensures CountText(pending[..n], text) <= CountText(pending, text)
    decreases |pending|
  {
    if n < |pending| {
      var k := |pending| - 1;
      assert pending[..k][..n] == pending[..n];
      CountGrows(pending[..k], n, text);
    } else {
      assert pending[..n] == pending;
    }
  }
}
