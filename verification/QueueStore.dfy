/**
 * The queue's tables as mutable state: the store's verbs (packages/db/src/run-queue-store.ts) and the service over them
 * (apps/server/src/runs/queue.ts).
 */
module QueueStore {
  import opened Wrappers
  import opened Sorting
  import opened RunQueue
  import opened QueueOrder

  datatype Missing = NoBatch(id: nat) | NoEntry(id: nat)

  datatype QueuedEntry = QueuedEntry(entry: Entry, position: nat)

  class RunQueueStore {
    var batches: seq<Batch>
    var entries: seq<Entry>

    function Rows(): Queue
      reads this
    {
      Queue(batches, entries)
    }

    ghost predicate Valid()
      reads this
    {
      Linked(Rows())
    }

    constructor ()
      ensures Rows() == EMPTY && Valid()
    {
      batches, entries := [], [];
    }

    method BatchByKey(key: nat) returns (found: Option<nat>)
      ensures found.Some? ==> found.value < |batches| && batches[found.value].key == key
      ensures found.None? ==> !KeyUsed(Rows(), key)
    {
      for b := 0 to |batches|
        invariant forall c | 0 <= c < b :: batches[c].key != key
      {
        if batches[b].key == key {
          return Some(b);
        }
      }
      return None;
    }

    method CreateBatch(key: nat) returns (id: nat)
      requires Valid()
      modifies this
      ensures Valid() && id == |old(batches)| && entries == old(entries)
      ensures batches == old(batches) + [Batch(key, BatchRunning, None, None)]
    {
      id := |batches|;
      batches := batches + [Batch(key, BatchRunning, None, None)];
    }

    method Enqueue(batch: nat, item: Item, now: Time)
      requires Valid() && batch < |batches|
      modifies this`entries
      ensures Valid() && entries == old(entries) + [NewEntry(|old(entries)|, batch, item, now)]
    {
      entries := entries + [NewEntry(|entries|, batch, item, now)];
    }

    method PauseBatch(b: nat, reason: string) returns (r: Result<Batch, Missing>)
      requires Valid()
      modifies this
      ensures Valid() && Rows() == if b < |old(batches)| then RunQueue.PauseBatch(old(Rows()), b, reason)
          else old(Rows())
      ensures r == if b < |batches| then Ok(batches[b]) else Err(NoBatch(b))
    {
      if b >= |batches| {
        return Err(NoBatch(b));
      }
      batches := batches[b := batches[b].(state := BatchPaused, pauseReason := Some(reason))];
      entries := Update(entries, (e: Entry) => PauseRow(e, b, reason));
      return Ok(batches[b]);
    }

    method ResumeBatch(b: nat) returns (r: Result<Batch, Missing>)
      requires Valid()
      modifies this
      ensures Valid() && Rows() == if b < |old(batches)| then RunQueue.ResumeBatch(old(Rows()), b) else old(Rows())
      ensures r == if b < |batches| then Ok(batches[b]) else Err(NoBatch(b))
    {
      if b >= |batches| {
        return Err(NoBatch(b));
      }
      batches := batches[b := batches[b].(state := BatchRunning, pauseReason := None)];
      entries := Update(entries, (e: Entry) => ResumeRow(e, b));
      return Ok(batches[b]);
    }

    method AbortBatch(b: nat, reason: string, now: Time) returns (r: Result<Batch, Missing>)
      requires Valid()
      modifies this
      ensures Valid() && Rows() == if b < |old(batches)| then RunQueue.AbortBatch(old(Rows()), b, reason, now)
          else old(Rows())
      ensures r == if b < |batches| then Ok(batches[b]) else Err(NoBatch(b))
    {
      if b >= |batches| {
        return Err(NoBatch(b));
      }
      batches := batches[b := batches[b].(state := BatchAborted, pauseReason := Some(reason), settledAt := Some(now))];
      entries := Update(entries, (e: Entry) => AbortRow(e, b, reason, now));
      return Ok(batches[b]);
    }

    method SettleBatchIfFinished(b: nat, now: Time) returns (r: Result<Batch, Missing>)
      requires Valid()
      modifies this`batches
      ensures Valid() && Rows() == if b < |old(batches)| then RunQueue.SettleBatchIfFinished(old(Rows()), b, now)
          else old(Rows())
      ensures r == if b < |batches| then Ok(batches[b]) else Err(NoBatch(b))
    {
      if b >= |batches| {
        return Err(NoBatch(b));
      }
      if !batches[b].state.BatchRunning? {
        return Ok(batches[b]);
      }
      var outstanding := Filter(entries, (e: Entry) => e.batch == b && Outstanding(e.state));
      assert HasOutstanding(Rows(), b) ==> outstanding != [] by {
        if HasOutstanding(Rows(), b) {
          var i :| 0 <= i < |entries| && entries[i].batch == b && Outstanding(entries[i].state);
          assert entries[i] in outstanding;
        }
      }
      if outstanding != [] {
        assert outstanding[0] in entries;
        return Ok(batches[b]);
      }
      batches := batches[b := batches[b].(state := BatchCompleted, settledAt := Some(now))];
      return Ok(batches[b]);
    }

    /** UPDATE of one row, then reading it back; the row must exist for the read to answer. */
    method Write(id: nat, f: Entry -> Entry) returns (r: Result<Entry, Missing>)
      requires Valid() && (id < |entries| ==> SameKey(f(entries[id]), entries[id]))
      modifies this`entries
      ensures Valid() && Rows() == if id < |old(entries)| then SetEntry(old(Rows()), id, f(old(entries)[id]))
          else old(Rows())
      ensures r == if id < |entries| then Ok(entries[id]) else Err(NoEntry(id))
    {
      if id >= |entries| {
        return Err(NoEntry(id));
      }
      entries := entries[id := f(entries[id])];
      return Ok(entries[id]);
    }

    method MarkStarting(id: nat, now: Time) returns (r: Result<Entry, Missing>)
      requires Valid()
      modifies this`entries
      ensures Valid() && Rows() == if id < |old(entries)| then RunQueue.MarkStarting(old(Rows()), id, now)
          else old(Rows())
      ensures r == if id < |entries| then Ok(entries[id]) else Err(NoEntry(id))
    {
      r := Write(id, (e: Entry) => e.(state := Starting, startedAt := Some(now), detail := None));
    }

    method MarkRunning(id: nat, run: nat, session: nat) returns (r: Result<Entry, Missing>)
      requires Valid()
      modifies this`entries
      ensures Valid() && Rows() == if id < |old(entries)| then RunQueue.MarkRunning(old(Rows()), id, run, session)
          else old(Rows())
      ensures r == if id < |entries| then Ok(entries[id]) else Err(NoEntry(id))
    {
      r := Write(id, (e: Entry) => e.(state := Running, runId := Some(run), sessionId := Some(session)));
    }

    method MarkNeedsReask(id: nat, detail: string) returns (r: Result<Entry, Missing>)
      requires Valid()
      modifies this`entries
      ensures Valid() && Rows() == if id < |old(entries)| then RunQueue.MarkNeedsReask(old(Rows()), id, detail)
          else old(Rows())
      ensures r == if id < |entries| then Ok(entries[id]) else Err(NoEntry(id))
    {
      r := Write(id, (e: Entry) => e.(state := NeedsReask, detail := Some(detail)));
    }

    method Park(id: nat, detail: string) returns (r: Result<Entry, Missing>)
      requires Valid()
      modifies this`entries
      ensures Valid() && Rows() == if id < |old(entries)| then RunQueue.Park(old(Rows()), id, detail) else old(Rows())
      ensures r == if id < |entries| then Ok(entries[id]) else Err(NoEntry(id))
    {
      r := Write(id, (e: Entry) => e.(state := Paused, detail := Some(detail)));
    }

    method Reconfirm(id: nat, contract: nat, state: EntryState, detail: Option<string>)
        returns (r: Result<Entry, Missing>)
      requires Valid()
      modifies this`entries
      ensures Valid() && Rows() == if id < |old(entries)|
          then RunQueue.Reconfirm(old(Rows()), id, contract, state, detail) else old(Rows())
      ensures r == if id < |entries| then Ok(entries[id]) else Err(NoEntry(id))
    {
      r := Write(id, (e: Entry) => e.(state := state, contract := contract, detail := detail));
    }

    method Settle(id: nat, state: EntryState, detail: Option<string>, now: Time) returns (r: Result<Entry, Missing>)
      requires Valid()
      modifies this`entries
      ensures Valid() && Rows() == if id < |old(entries)| then RunQueue.Settle(old(Rows()), id, state, detail, now)
          else old(Rows())
      ensures r == if id < |entries| then Ok(entries[id]) else Err(NoEntry(id))
    {
      r := Write(id, (e: Entry) => e.(state := state, detail := detail, settledAt := Some(now)));
    }

    /** Every entry the last process left starting goes back to the queue. */
    method ReclaimUnstarted() returns (stranded: seq<Entry>)
      requires Valid()
      modifies this`entries
      ensures Valid() && Rows() == RunQueue.ReclaimUnstarted(old(Rows()))
      ensures forall e :: e in stranded <==> e in old(entries) && e.state.Starting?
    {
      ghost var was := entries;
      stranded := Filter(entries, (e: Entry) => e.state.Starting?);
      forall k | 0 <= k < |stranded|
        ensures stranded[k].id < |was| && was[stranded[k].id] == stranded[k] && stranded[k].state.Starting?
      {
        assert stranded[k] in was;
      }
      for i := 0 to |stranded|
        invariant |entries| == |was|
        invariant forall j | 0 <= j < |was| :: entries[j] == was[j] || entries[j] == ReclaimRow(was[j])
        invariant forall k | 0 <= k < i :: entries[stranded[k].id] == ReclaimRow(stranded[k])
      {
        var id := stranded[i].id;
        entries := entries[id := entries[id].(state := Queued, startedAt := None,
            detail := Some("re-queued after a restart interrupted its start"))];
      }
      forall j | 0 <= j < |was|
        ensures entries[j] == ReclaimRow(was[j])
      {
        if was[j].state.Starting? {
          assert was[j] in stranded;
        }
      }
    }

    /** The waiting rows, first to be admitted first, numbered from one. */
    method Waiting() returns (r: seq<QueuedEntry>)
      requires Valid()
      ensures |r| == |RunQueue.Waiting(Rows())|
      ensures forall i | 0 <= i < |r| :: r[i] == QueuedEntry(RunQueue.Waiting(Rows())[i], i + 1)
      ensures forall i | 0 <= i < |r| :: Waits(Rows(), r[i].entry.id) && entries[r[i].entry.id] == r[i].entry
      ensures forall i | 0 <= i < |r| :: HasPosition(Rows(), r[i].entry.id, r[i].position)
      ensures forall i, j | 0 <= i < j < |r| :: Before(r[i].entry, r[j].entry)
      ensures forall i, j | 0 <= i < j < |r| ::
        || r[i].entry.enqueuedAt < r[j].entry.enqueuedAt
        || (r[i].entry.enqueuedAt == r[j].entry.enqueuedAt && r[i].entry.position <= r[j].entry.position)
      ensures forall id: nat | Waits(Rows(), id) :: Listed(r, id)
    {
      r := Numbered(RunQueue.Waiting(Rows()));
      WaitingRows(Rows());
      WaitingInOrder(Rows());
      hide RunQueue.Waiting, Before, Linked, Waits, HasPosition, Listed, Numbered;
    }
  }

  function Numbered(rows: seq<Entry>): (r: seq<QueuedEntry>)
    ensures |r| == |rows| && forall i | 0 <= i < |r| :: r[i] == QueuedEntry(rows[i], i + 1)
  {
    seq(|rows|, i requires 0 <= i < |rows| => QueuedEntry(rows[i], i + 1))
  }

  lemma WaitingInOrder(q: Queue)
    requires Linked(q)
    ensures var r := Numbered(RunQueue.Waiting(q)); forall i, j | 0 <= i < j < |r| ::
      && Before(r[i].entry, r[j].entry)
      && (r[i].entry.enqueuedAt < r[j].entry.enqueuedAt
          || (r[i].entry.enqueuedAt == r[j].entry.enqueuedAt && r[i].entry.position <= r[j].entry.position))
  {
    WaitingIsAQueue(q);
    hide RunQueue.Waiting, Linked, Distinct;
  }

  /** Each waiting row stands in the table at its id, and each entry that waits is one of them. */
  lemma WaitingRows(q: Queue)
    requires Linked(q)
    ensures var r := Numbered(RunQueue.Waiting(q));
      && (forall i | 0 <= i < |r| ::
            Waits(q, r[i].entry.id) && q.entries[r[i].entry.id] == r[i].entry
            && HasPosition(q, r[i].entry.id, r[i].position))
      && forall id: nat | Waits(q, id) :: Listed(r, id)
  {
    WaitingIsAQueue(q);
    hide RunQueue.Waiting, Before, Distinct;
    var rows := RunQueue.Waiting(q);
    var r := Numbered(rows);
    forall i | 0 <= i < |rows|
      ensures Waits(q, rows[i].id) && q.entries[rows[i].id] == rows[i]
    {
      assert rows[i] in rows;
    }
    forall id: nat | Waits(q, id)
      ensures Listed(r, id)
    {
      assert q.entries[id] in rows;
      var k :| 0 <= k < |rows| && rows[k] == q.entries[id];
      assert r[k].entry.id == id;
    }
  }

  ghost predicate Listed(r: seq<QueuedEntry>, id: nat) {
    exists i | 0 <= i < |r| :: r[i].entry.id == id
  }
}
