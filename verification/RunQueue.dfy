/**
 * The run queue's rows, its store's verbs, and the service steps that call them (packages/db/src/run-queue-store.ts,
 * apps/server/src/runs/queue.ts).
 */
module RunQueue {
  import opened Wrappers
  import opened Sorting

  type Time = int

  datatype BatchState = BatchRunning | BatchPaused | BatchAborted | BatchCompleted

  datatype EntryState = Queued | Starting | Running | NeedsReask | Done | Failed | Interrupted | Cancelled | Paused

  datatype Batch = Batch(key: nat, state: BatchState, pauseReason: Option<string>, settledAt: Option<Time>)

  datatype Entry = Entry(
    id: nat, batch: nat, command: nat, position: int, state: EntryState, contract: nat,
    runId: Option<nat>, sessionId: Option<nat>, detail: Option<string>,
    enqueuedAt: Time, startedAt: Option<Time>, settledAt: Option<Time>)

  /** Both tables in insertion order; a row's id is its index. */
  datatype Queue = Queue(batches: seq<Batch>, entries: seq<Entry>)

  const EMPTY := Queue([], [])

  predicate Startable(state: EntryState) { state.Queued? }

  predicate Cancellable(state: EntryState) { state.Queued? || state.NeedsReask? || state.Paused? }

  predicate Settled(state: EntryState) { state.Done? || state.Failed? || state.Interrupted? || state.Cancelled? }

  /** What settleBatchIfFinished counts as still to come; a paused entry is not among them. */
  predicate Outstanding(state: EntryState) { state.Queued? || state.Starting? || state.Running? || state.NeedsReask? }

  /** What no verb rewrites: identity, batch, and the two columns admission is ordered by. */
  predicate SameKey(a: Entry, b: Entry) {
    a.id == b.id && a.batch == b.batch && a.command == b.command && a.position == b.position
        && a.enqueuedAt == b.enqueuedAt
  }

  ghost predicate KeysKept(q: Queue, r: Queue) {
    && |q.batches| <= |r.batches| && |q.entries| <= |r.entries|
    && (forall b | 0 <= b < |q.batches| :: r.batches[b].key == q.batches[b].key)
    && (forall i | 0 <= i < |q.entries| :: SameKey(q.entries[i], r.entries[i]))
  }

  lemma KeysKeptOn(q: Queue, r: Queue, s: Queue)
    requires KeysKept(q, r) && KeysKept(r, s)
    ensures KeysKept(q, s)
  {
  }

  // ----- batch verbs

  /** UPDATE over the whole entries table. */
  function Update(entries: seq<Entry>, f: Entry -> Entry): (r: seq<Entry>)
    ensures |r| == |entries| && forall i | 0 <= i < |entries| :: r[i] == f(entries[i])
  {
    seq(|entries|, i requires 0 <= i < |entries| => f(entries[i]))
  }

  function PauseRow(e: Entry, batch: nat, reason: string): Entry {
    if e.batch == batch && e.state.Queued? then e.(state := Paused, detail := Some(reason)) else e
  }

  function ResumeRow(e: Entry, batch: nat): Entry {
    if e.batch == batch && e.state.Paused? then e.(state := Queued, detail := None) else e
  }

  function AbortRow(e: Entry, batch: nat, reason: string, now: Time): Entry {
    if e.batch == batch && Cancellable(e.state)
        then e.(state := Cancelled, detail := Some(reason), settledAt := Some(now)) else e
  }

  function ReclaimRow(e: Entry): Entry {
    if e.state.Starting? then Requeued(e) else e
  }

  function Requeued(e: Entry): Entry {
    e.(state := Queued, startedAt := None, detail := Some("re-queued after a restart interrupted its start"))
  }

  function PauseBatch(q: Queue, b: nat, reason: string): (r: Queue)
    requires b < |q.batches|
    ensures KeysKept(q, r) && |r.entries| == |q.entries| && |r.batches| == |q.batches|
  {
    Queue(q.batches[b := q.batches[b].(state := BatchPaused, pauseReason := Some(reason))],
          Update(q.entries, (e: Entry) => PauseRow(e, b, reason)))
  }

  function ResumeBatch(q: Queue, b: nat): (r: Queue)
    requires b < |q.batches|
    ensures KeysKept(q, r) && |r.entries| == |q.entries| && |r.batches| == |q.batches|
  {
    Queue(q.batches[b := q.batches[b].(state := BatchRunning, pauseReason := None)],
          Update(q.entries, (e: Entry) => ResumeRow(e, b)))
  }

  function AbortBatch(q: Queue, b: nat, reason: string, now: Time): (r: Queue)
    requires b < |q.batches|
    ensures KeysKept(q, r) && |r.entries| == |q.entries| && |r.batches| == |q.batches|
  {
    Queue(q.batches[b := q.batches[b].(state := BatchAborted, pauseReason := Some(reason), settledAt := Some(now))],
          Update(q.entries, (e: Entry) => AbortRow(e, b, reason, now)))
  }

  ghost predicate HasOutstanding(q: Queue, b: nat) {
    exists i | 0 <= i < |q.entries| :: q.entries[i].batch == b && Outstanding(q.entries[i].state)
  }

  ghost function SettleBatchIfFinished(q: Queue, b: nat, now: Time): (r: Queue)
    requires b < |q.batches|
    ensures KeysKept(q, r) && |r.entries| == |q.entries| && |r.batches| == |q.batches|
  {
    if q.batches[b].state.BatchRunning? && !HasOutstanding(q, b)
    then q.(batches := q.batches[b := q.batches[b].(state := BatchCompleted, settledAt := Some(now))])
    else q
  }

  // ----- entry verbs

  function SetEntry(q: Queue, id: nat, row: Entry): (r: Queue)
    requires id < |q.entries|
    requires SameKey(row, q.entries[id])
    ensures KeysKept(q, r) && |r.entries| == |q.entries| && |r.batches| == |q.batches|
  {
    q.(entries := q.entries[id := row])
  }

  function Settle(q: Queue, id: nat, state: EntryState, detail: Option<string>, now: Time): (r: Queue)
    requires id < |q.entries|
    ensures KeysKept(q, r) && |r.entries| == |q.entries| && |r.batches| == |q.batches|
  {
    SetEntry(q, id, q.entries[id].(state := state, detail := detail, settledAt := Some(now)))
  }

  function MarkStarting(q: Queue, id: nat, now: Time): (r: Queue)
    requires id < |q.entries|
    ensures KeysKept(q, r) && |r.entries| == |q.entries| && |r.batches| == |q.batches|
  {
    SetEntry(q, id, q.entries[id].(state := Starting, startedAt := Some(now), detail := None))
  }

  function MarkRunning(q: Queue, id: nat, run: nat, session: nat): (r: Queue)
    requires id < |q.entries|
    ensures KeysKept(q, r) && |r.entries| == |q.entries| && |r.batches| == |q.batches|
  {
    SetEntry(q, id, q.entries[id].(state := Running, runId := Some(run), sessionId := Some(session)))
  }

  function MarkNeedsReask(q: Queue, id: nat, detail: string): (r: Queue)
    requires id < |q.entries|
    ensures KeysKept(q, r) && |r.entries| == |q.entries| && |r.batches| == |q.batches|
  {
    SetEntry(q, id, q.entries[id].(state := NeedsReask, detail := Some(detail)))
  }

  function Park(q: Queue, id: nat, detail: string): (r: Queue)
    requires id < |q.entries|
    ensures KeysKept(q, r) && |r.entries| == |q.entries| && |r.batches| == |q.batches|
  {
    SetEntry(q, id, q.entries[id].(state := Paused, detail := Some(detail)))
  }

  /** The fresh contract replaces the old one, and the entry lands in `state`. */
  function Reconfirm(q: Queue, id: nat, contract: nat, state: EntryState, detail: Option<string>): (r: Queue)
    requires id < |q.entries|
    ensures KeysKept(q, r) && |r.entries| == |q.entries| && |r.batches| == |q.batches|
  {
    SetEntry(q, id, q.entries[id].(state := state, contract := contract, detail := detail))
  }

  function ReclaimUnstarted(q: Queue): (r: Queue)
    ensures KeysKept(q, r) && |r.entries| == |q.entries| && |r.batches| == |q.batches|
  {
    q.(entries := Update(q.entries, (e: Entry) => ReclaimRow(e)))
  }

  // ----- what is waiting

  predicate Before(a: Entry, b: Entry) {
    a.enqueuedAt < b.enqueuedAt || (a.enqueuedAt == b.enqueuedAt && a.position <= b.position)
  }

  function QueuedRows(q: Queue): seq<Entry> {
    Filter(q.entries, (e: Entry) => e.state.Queued?)
  }

  /** The entries waiting, first to be admitted first; the k-th one shows position k + 1. */
  function Waiting(q: Queue): seq<Entry> {
    Sort(QueuedRows(q), (a: Entry, b: Entry) => Before(a, b))
  }

  // ----- the service's steps

  datatype End = EndCompleted | EndByUser | EndStopped | EndFailed | EndOutOfBudget | EndInterrupted(message: string)

  datatype Item = Item(command: nat, position: int, contract: nat, detail: Option<string>)

  datatype Step =
    | Initiate(key: nat, items: seq<Item>, now: Time)
    | Cancel(entry: nat, now: Time)
    | Confirm(entry: nat, contract: nat)
    | Resume(batch: nat)
    | FinishResume(batch: nat, now: Time)
    | Decline(entry: nat, now: Time)
    | Abandon(entry: nat, detail: string, now: Time)
    | Reask(entry: nat, detail: string)
    | Start(entry: nat, now: Time)
    | Bind(entry: nat, run: nat, session: nat, ended: Option<End>, now: Time)
    | Refuse(entry: nat, message: string, now: Time)
    | SessionEnded(entry: nat, end: End, now: Time)
    | Reclaim
    | ReclaimOne(entry: nat)

  function EnqueueAll(entries: seq<Entry>, batch: nat, items: seq<Item>, now: Time): (r: seq<Entry>)
    ensures |r| == |entries| + |items|
    ensures forall i | 0 <= i < |entries| :: r[i] == entries[i]
    ensures forall i | |entries| <= i < |r| :: r[i] == NewEntry(i, batch, items[i - |entries|], now)
  {
    entries + seq(|items|, i requires 0 <= i < |items| => NewEntry(|entries| + i, batch, items[i], now))
  }

  function NewEntry(id: nat, batch: nat, item: Item, now: Time): Entry {
    Entry(id, batch, item.command, item.position, Queued, item.contract, None, None, item.detail, now, None, None)
  }

  ghost predicate KeyUsed(q: Queue, key: nat) {
    exists b | 0 <= b < |q.batches| :: q.batches[b].key == key
  }

  /**
   * Whether the service carries this step out at all; otherwise it refuses, or the branch is not taken, and nothing
   * changes.
   */
  ghost predicate Taken(q: Queue, step: Step) {
    match step
    case Initiate(key, items, _) => items != [] && !KeyUsed(q, key)
    case Cancel(e, _) => e < |q.entries| && Cancellable(q.entries[e].state)
    case Confirm(e, _) =>
      && e < |q.entries| && q.entries[e].state.NeedsReask?
      && !BatchOf(q, e).state.BatchAborted? && !BatchOf(q, e).state.BatchCompleted?
    case Resume(b) => b < |q.batches| && q.batches[b].state.BatchPaused?
    case FinishResume(b, _) => b < |q.batches|
    case Decline(e, _) => e < |q.entries| && Startable(q.entries[e].state) && !BatchOf(q, e).state.BatchRunning?
    case Abandon(e, _, _) => Admissible(q, e)
    case Reask(e, _) => Admissible(q, e)
    case Start(e, _) => Admissible(q, e)
    case Bind(e, _, _, _, _) => e < |q.entries| && q.entries[e].state.Starting?
    case Refuse(e, _, _) => e < |q.entries| && q.entries[e].state.Starting?
    case SessionEnded(e, _, _) => e < |q.entries| && q.entries[e].sessionId.Some? && q.entries[e].settledAt.None?
    case Reclaim => true
    case ReclaimOne(e) => e < |q.entries| && q.entries[e].state.Starting? && q.entries[e].sessionId.None?
  }

  ghost predicate Admissible(q: Queue, e: nat) {
    e < |q.entries| && Startable(q.entries[e].state) && BatchOf(q, e).state.BatchRunning?
  }

  function BatchOf(q: Queue, e: nat): Batch
    requires e < |q.entries|
  {
    var b := q.entries[e].batch;
    if b < |q.batches| then q.batches[b] else Batch(0, BatchCompleted, None, None)
  }

  /** Every entry names a batch that exists, and its own place in the table. */
  ghost predicate Linked(q: Queue) {
    forall i | 0 <= i < |q.entries| :: q.entries[i].id == i && q.entries[i].batch < |q.batches|
  }

  ghost function Next(q: Queue, step: Step): Queue
    requires Linked(q)
  {
    if !Taken(q, step) then q
    else
      match step
      case Initiate(key, items, now) =>
        Queue(q.batches + [Batch(key, BatchRunning, None, None)], EnqueueAll(q.entries, |q.batches|, items, now))
      case Cancel(e, now) =>
        SettleBatchIfFinished(Settle(q, e, Cancelled, Some("cancelled before it started"), now), q.entries[e].batch,
            now)
      case Confirm(e, contract) =>
        if BatchOf(q, e).state.BatchPaused?
        then Reconfirm(q, e, contract, Paused, Some("confirmed; it runs when the batch this belongs to is resumed"))
        else Reconfirm(q, e, contract, Queued, None)
      case Resume(b) => ResumeBatch(q, b)
      case FinishResume(b, now) => SettleBatchIfFinished(q, b, now)
      case Decline(e, now) => DeclineRow(q, e, now)
      case Abandon(e, detail, now) =>
        SettleBatchIfFinished(Settle(q, e, Cancelled, Some(detail), now), q.entries[e].batch, now)
      case Reask(e, detail) => MarkNeedsReask(q, e, detail)
      case Start(e, now) => MarkStarting(q, e, now)
      case Bind(e, run, session, ended, now) =>
        var bound := MarkRunning(q, e, run, session);
        if ended.Some? then SettleEntryFor(bound, e, ended.value, now) else bound
      case Refuse(e, message, now) =>
        PauseBatch(Settle(q, e, Failed, Some(message), now), q.entries[e].batch,
            "a run in this batch was refused: " + message)
      case SessionEnded(e, end, now) => SettleEntryFor(q, e, end, now)
      case Reclaim => ReclaimUnstarted(q)
      case ReclaimOne(e) => SetEntry(q, e, Requeued(q.entries[e]))
  }

  /** An entry whose batch is not running leaves `queued`: parked if the batch is paused, cancelled otherwise. */
  function DeclineRow(q: Queue, e: nat, now: Time): (r: Queue)
    requires e < |q.entries| && q.entries[e].batch < |q.batches|
    ensures KeysKept(q, r) && |r.entries| == |q.entries| && |r.batches| == |q.batches|
  {
    var batch := BatchOf(q, e);
    if batch.state.BatchPaused?
    then Park(q, e, if batch.pauseReason.Some? then batch.pauseReason.value else "the batch this belongs to is paused")
    else Settle(q, e, Cancelled, Some("the batch this belongs to is over"), now)
  }

  /** One session end becomes one entry outcome, and says what it does to the rest of the batch. */
  ghost function SettleEntryFor(q: Queue, e: nat, end: End, now: Time): (r: Queue)
    requires e < |q.entries| && q.entries[e].batch < |q.batches|
    ensures KeysKept(q, r) && |r.entries| == |q.entries| && |r.batches| == |q.batches|
  {
    hide PauseBatch, AbortBatch, SettleBatchIfFinished, Settle, SameKey;
    var settled, b := Settle(q, e, OutcomeOf(end), Some(DetailOf(end)), now), q.entries[e].batch;
    var r :=
      if Pauses(end) then PauseBatch(settled, b, PauseReason(end))
      else if end.EndStopped? then AbortBatch(settled, b, "a run in this batch was stopped", now)
      else SettleBatchIfFinished(settled, b, now);
    KeysKeptOn(q, settled, r);
    r
  }

  predicate Pauses(end: End) { end.EndFailed? || end.EndOutOfBudget? || end.EndInterrupted? }

  function OutcomeOf(end: End): (r: EntryState)
    ensures Settled(r)
    ensures r.Done? <==> end.EndCompleted? || end.EndByUser?
    ensures r.Failed? <==> end.EndFailed? || end.EndOutOfBudget?
    ensures r.Interrupted? <==> end.EndInterrupted?
    ensures r.Cancelled? <==> end.EndStopped?
  {
    match end
    case EndFailed => Failed
    case EndOutOfBudget => Failed
    case EndInterrupted(_) => Interrupted
    case EndStopped => Cancelled
    case EndCompleted => Done
    case EndByUser => Done
  }

  function DetailOf(end: End): string {
    match end
    case EndFailed => "failed"
    case EndOutOfBudget => "out-of-budget"
    case EndInterrupted(message) => message
    case EndStopped => "stopped by user"
    case EndCompleted => "completed"
    case EndByUser => "ended-by-user"
  }

  function PauseReason(end: End): string {
    if end.EndInterrupted? then "a run in this batch was interrupted rather than finishing; address it and resume"
    else "a run in this batch ended as " + DetailOf(end) + "; address it and resume"
  }

  ghost function Run(q: Queue, steps: seq<Step>): (r: Queue)
    requires Linked(q)
    ensures Linked(r)
    decreases |steps|
  {
    if steps == [] then q
    else
      NextLinked(q, steps[0]);
      Run(Next(q, steps[0]), steps[1..])
  }

  lemma NextLinked(q: Queue, step: Step)
    requires Linked(q)
    ensures Linked(Next(q, step)) && KeysKept(q, Next(q, step))
  {
    if step.Initiate? || !Taken(q, step) {
      KeptByItself(q);
    } else {
      StepKeepsKeys(q, step);
      hide Next, KeysKept;
      LinkedStays(q, Next(q, step));
    }
  }

  lemma KeptByItself(q: Queue)
    ensures KeysKept(q, q)
  {
  }

  lemma NotTakenStays(q: Queue, step: Step)
    requires Linked(q) && !Taken(q, step)
    ensures Next(q, step) == q
  {
  }

  lemma StepKeepsKeys(q: Queue, step: Step)
    requires Linked(q) && Taken(q, step) && !step.Initiate?
    ensures KeysKept(q, Next(q, step)) && |Next(q, step).entries| == |q.entries|
  {
    hide PauseBatch, ResumeBatch, AbortBatch, SettleBatchIfFinished, SetEntry, Settle, MarkStarting, MarkRunning,
        MarkNeedsReask;
    hide Park, Reconfirm, ReclaimUnstarted, DeclineRow, SettleEntryFor;
  }

  lemma LinkedStays(q: Queue, r: Queue)
    requires Linked(q) && KeysKept(q, r) && |r.entries| == |q.entries|
    ensures Linked(r)
  {
  }
}
