/**
 * The blob store as it runs: every file and row effect goes through one place, in order
 * (packages/db/src/blob-store.ts).
 */
module BlobStore {
  import opened Wrappers
  import opened Sorting
  import opened Blobs

  datatype StoredBlob = StoredBlob(id: BlobId, hash: Hash, size: nat, external: bool, deduped: bool)

  datatype Swept = Swept(removed: nat, bytesFreed: nat)

  /** The bytes a sweep reports: the sizes of the rows it removed. */
  function SizeOf(s: Store, order: seq<BlobId>): nat
    requires forall b | b in order :: b in s.blobs
  {
    if order == [] then 0 else SizeOf(s, order[..|order| - 1]) + s.blobs[order[|order| - 1]].size
  }

  class BlobStore {
    var blobs: map<BlobId, BlobRow>
    var files: map<Hash, Bytes>
    var refs: map<Ref, bool>

    /** Every effect performed so far, oldest first. */
    ghost var log: seq<Effect>

    ghost function Contents(): Store
      reads this
    {
      Store(blobs, files, refs)
    }

    constructor ()
      ensures Contents() == Store(map[], map[], map[]) && log == [] && Valid(Contents())
    {
      blobs, files, refs, log := map[], map[], map[], [];
    }

    method Perform(e: Effect)
      modifies this
      ensures Contents() == Do(old(Contents()), e) && log == old(log) + [e]
    {
      match e {
        case WriteFile(hash, bytes) => files := files[hash := bytes];
        case RemoveFile(hash) => files := files - {hash};
        case PutRow(id, row) => blobs := blobs[id := row];
        case DeleteRows(ids) =>
          blobs := blobs - ids;
          refs := map r | r in refs && r.blob !in ids :: refs[r];
      }
      log := log + [e];
    }

    method WriteExternal(hash: Hash, bytes: Bytes)
      modifies this
      ensures Contents() == Do(old(Contents()), WriteFile(hash, bytes)) && log == old(log) + [WriteFile(hash, bytes)]
    {
      Perform(WriteFile(hash, bytes));
    }

    /** Store content, or reuse what is stored already; a released blob comes back first. */
    method Put(bytes: Bytes, freshId: BlobId) returns (stored: StoredBlob)
      requires Valid(Contents()) && freshId !in blobs
      modifies this
      ensures Contents() == Blobs.Put(old(Contents()), bytes, freshId)
      ensures log == old(log) + PutEffects(old(Contents()), bytes, freshId)
      ensures stored.id == PutId(old(Contents()), bytes, freshId) && stored.hash == Sha256(bytes)
          && stored.size == |bytes|
      ensures stored.deduped <==> exists b | b in old(blobs) :: old(blobs)[b].hash == Sha256(bytes)
    {
      ghost var before := Contents();
      var hash := Sha256(bytes);
      if b :| b in blobs && blobs[b].hash == hash {
        var existing := blobs[b];
        if existing.releasedAt.Some? {
          Restore(b, bytes);
        }
        return StoredBlob(b, hash, existing.size, existing.isExternal, true);
      }
      var external := TooLong(bytes);
      if external {
        WriteExternal(hash, bytes);
      }
      var row := BlobRow(hash, |bytes|, if external then None else Some(bytes), external, None);
      Perform(PutRow(freshId, row));
      StoreTrace(before, freshId, bytes, row);
      stored := StoredBlob(freshId, hash, |bytes|, external, false);
    }

    /** Write a released blob's bytes back, file before row. */
    method Restore(id: BlobId, bytes: Bytes)
      requires id in blobs && blobs[id].hash == Sha256(bytes)
      modifies this
      ensures var row := old(blobs)[id].(releasedAt := None, isExternal := TooLong(bytes),
          inlineBytes := if TooLong(bytes) then None else Some(bytes));
              && Contents() == DoAll(old(Contents()), StoreEffects(id, bytes, row))
              && log == old(log) + StoreEffects(id, bytes, row)
    {
      ghost var before := Contents();
      var row := blobs[id];
      var external := TooLong(bytes);
      if external {
        WriteExternal(row.hash, bytes);
      }
      var restored := row.(releasedAt := None, isExternal := external, inlineBytes := if external then None
          else Some(bytes));
      Perform(PutRow(id, restored));
      StoreTrace(before, id, bytes, restored);
    }

    method Reference(r: Ref, pinned: bool)
      modifies this
      ensures Contents() == Blobs.Reference(old(Contents()), r, pinned) && log == old(log)
    {
      if r.blob in blobs {
        refs := refs[r := pinned];
      }
    }

    method Dereference(r: Ref)
      modifies this
      ensures Contents() == Blobs.Dereference(old(Contents()), r) && log == old(log)
    {
      refs := refs - {r};
    }

    /** Let go of the bytes of external content, keeping the row. */
    method Release(id: BlobId, now: Time) returns (released: bool)
      modifies this
      ensures Contents() == Blobs.Release(old(Contents()), id, now)
      ensures log == old(log) + ReleaseEffects(old(Contents()), id, now)
      ensures released <==> ReleaseEffects(old(Contents()), id, now) != []
    {
      if id !in blobs || !blobs[id].isExternal || blobs[id].releasedAt.Some? {
        return false;
      }
      ghost var before := Contents();
      var row := blobs[id];
      Perform(RemoveFile(row.hash));
      Perform(PutRow(id, row.(isExternal := false, releasedAt := Some(now))));
      DoAllTwo(before, RemoveFile(row.hash), PutRow(id, row.(isExternal := false, releasedAt := Some(now))));
      return true;
    }

    /** The rows nothing references, as the query lists them. */
    method OrphanList() returns (order: seq<BlobId>)
      ensures ListsOrphans(Contents(), order)
    {
      order := [];
      var todo := set b | b in blobs && !(exists r | r in refs :: r.blob == b);
      ghost var all := todo;
      while todo != {}
        invariant todo <= all && Distinct(order)
        invariant forall b :: b in order <==> b in all - todo
        decreases todo
      {
        var b :| b in todo;
        DistinctAppend(order, b);
        order := order + [b];
        todo := todo - {b};
      }
    }

    /** Remove what nothing points at: all rows in one transaction, then file after file. */
    method Compact() returns (swept: Swept, ghost order: seq<BlobId>)
      modifies this
      ensures ListsOrphans(old(Contents()), order)
      ensures Contents() == Blobs.Compact(old(Contents()), order)
      ensures log == old(log) + CompactEffects(old(Contents()), order)
      ensures swept == Swept(|order|, SizeOf(old(Contents()), order))
    {
      hide Do, DoAll, SweepUpTo, FileRemovals, ListsOrphans, SizeOf;
      ghost var before := Contents();
      var orphans := OrphanList();
      order := orphans;
      SweepStarts(before, orphans);
      if |orphans| == 0 {
        return Swept(0, 0), order;
      }
      var rows := blobs;
      Perform(DeleteRows(Members(orphans)));
      var bytesFreed := RemoveFiles(before, orphans, rows);
      ghost var first, rest := [DeleteRows(Members(orphans))], SweepUpTo(before, orphans, |orphans|)[1..];
      assert old(log) + first + rest == old(log) + (first + rest);
      swept := Swept(|orphans|, bytesFreed);
    }

    /** The second half of a sweep: one file after the other, adding up what the rows said they held. */
    method RemoveFiles(ghost before: Store, orphans: seq<BlobId>, rows: map<BlobId, BlobRow>) returns (bytesFreed: nat)
      requires ListsOrphans(before, orphans) && rows == before.blobs
      requires Contents() == DoAll(before, SweepUpTo(before, orphans, 0))
      modifies this
      ensures Contents() == DoAll(before, SweepUpTo(before, orphans, |orphans|))
      ensures old(log) + SweepUpTo(before, orphans, |orphans|)[1..] == log
      ensures bytesFreed == SizeOf(before, orphans)
    {
      bytesFreed := 0;
      for i := 0 to |orphans|
        invariant Contents() == DoAll(before, SweepUpTo(before, orphans, i))
        invariant log == old(log) + SweepUpTo(before, orphans, i)[1..]
        invariant bytesFreed == SizeOf(before, orphans[..i])
      {
        SweepNext(before, orphans, i);
        Perform(RemoveFile(rows[orphans[i]].hash));
        bytesFreed := bytesFreed + rows[orphans[i]].size;
      }
      assert orphans[..|orphans|] == orphans;
    }
  }

  /** The effects of a sweep that has removed all rows and `i` files. */
  ghost function SweepUpTo(s: Store, order: seq<BlobId>, i: nat): seq<Effect>
    requires ListsOrphans(s, order) && i <= |order|
  {
    [DeleteRows(Orphans(s))] + FileRemovals(s, order)[..i]
  }

  lemma SweepStarts(s: Store, order: seq<BlobId>)
    requires ListsOrphans(s, order)
    ensures SizeOf(s, []) == 0 && DoAll(s, []) == s
    ensures var first := DeleteRows(Members(order));
            order != [] ==>
            && DoAll(s, SweepUpTo(s, order, 0)) == Do(s, first)
            && CompactEffects(s, order) == SweepUpTo(s, order, |order|)
            && CompactEffects(s, order) == [first] + SweepUpTo(s, order, |order|)[1..]
  {
    var gone := Members(order);
    assert gone == Orphans(s);
    DoAllOne(s, DeleteRows(gone));
    assert SweepUpTo(s, order, 0) == [DeleteRows(gone)];
    assert FileRemovals(s, order)[..|order|] == FileRemovals(s, order);
  }

  lemma SweepNext(s: Store, order: seq<BlobId>, i: nat)
    requires ListsOrphans(s, order) && i < |order|
    ensures order[i] in s.blobs
    ensures SweepUpTo(s, order, i + 1) == SweepUpTo(s, order, i) + [RemoveFile(s.blobs[order[i]].hash)]
    ensures DoAll(s, SweepUpTo(s, order, i + 1))
        == Do(DoAll(s, SweepUpTo(s, order, i)), RemoveFile(s.blobs[order[i]].hash))
    ensures SizeOf(s, order[..i + 1]) == SizeOf(s, order[..i]) + s.blobs[order[i]].size
  {
    assert order[i] in order;
    var es := SweepUpTo(s, order, i + 1);
    assert es == SweepUpTo(s, order, i) + [RemoveFile(s.blobs[order[i]].hash)];
    DoAllLast(s, es);
    assert es[..|es| - 1] == SweepUpTo(s, order, i);
    assert order[..i + 1][..i] == order[..i];
  }

  lemma StoreTrace(s: Store, id: BlobId, bytes: Bytes, row: BlobRow)
    ensures DoAll(s, StoreEffects(id, bytes, row)) ==
            Do(if TooLong(bytes) then Do(s, WriteFile(Sha256(bytes), bytes)) else s, PutRow(id, row))
  {
    DoAllOne(s, PutRow(id, row));
    DoAllTwo(s, WriteFile(Sha256(bytes), bytes), PutRow(id, row));
  }
}
