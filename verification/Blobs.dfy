/**
 * Content-addressed blobs: rows, files and references, and the effects each operation has on them in the order it has
 * them (packages/db/src/blob-store.ts).
 */
module Blobs {
  import opened Wrappers
  import opened Sorting

  type Byte = b: int | 0 <= b < 256
  type Bytes = seq<Byte>
  type BlobId = nat
  type Id = nat
  type Time = int

  /** SHA-256 as a symbol: equal digests have equal bytes, and nothing else is known of it. */
  datatype Hash = Sha256(bytes: Bytes)

  const INLINE_MAX_BYTES: nat := 64 * 1024

  datatype BlobRow = BlobRow(hash: Hash, size: nat, inlineBytes: Option<Bytes>, isExternal: bool,
      releasedAt: Option<Time>)

  /** Who holds a reference: a version of an object, or some other store's record. */
  datatype OwnerKind = ObjectVersion | OtherOwner(kind: nat)

  datatype Ref = Ref(blob: BlobId, ownerKind: OwnerKind, ownerId: Id)

  /** The two tables and the directory of files named by hash; references carry a pinned flag. */
  datatype Store = Store(blobs: map<BlobId, BlobRow>, files: map<Hash, Bytes>, refs: map<Ref, bool>)

  // ----- single effects

  /** What happens to the disk or the database in one go; a crash falls between two of these. */
  datatype Effect =
    | WriteFile(hash: Hash, bytes: Bytes)
    | RemoveFile(hash: Hash)
    | PutRow(id: BlobId, row: BlobRow)
    | DeleteRows(ids: set<BlobId>)

  /** Deleting a blob row cascades to the references that name it. */
  function Do(s: Store, e: Effect): Store {
    match e
    case WriteFile(hash, bytes) => s.(files := s.files[hash := bytes])
    case RemoveFile(hash) => s.(files := s.files - {hash})
    case PutRow(id, row) => s.(blobs := s.blobs[id := row])
    case DeleteRows(ids) => s.(blobs := s.blobs - ids, refs := map r | r in s.refs && r.blob !in ids :: s.refs[r])
  }

  function DoAll(s: Store, es: seq<Effect>): Store
    decreases |es|
  {
    if es == [] then s else DoAll(Do(s, es[0]), es[1..])
  }

  // ----- operations

  ghost function RowWith(s: Store, hash: Hash): (id: Option<BlobId>)
    ensures id.Some? ==> id.value in s.blobs && s.blobs[id.value].hash == hash
    ensures id.None? ==> forall b | b in s.blobs :: s.blobs[b].hash != hash
  {
    if b :| b in s.blobs && s.blobs[b].hash == hash then Some(b) else None
  }

  predicate TooLong(bytes: Bytes) {
    |bytes| > INLINE_MAX_BYTES
  }

  function StoredRow(bytes: Bytes): BlobRow {
    BlobRow(Sha256(bytes), |bytes|, if TooLong(bytes) then None else Some(bytes), TooLong(bytes), None)
  }

  /** The file, when there is to be one, then the row. */
  function StoreEffects(id: BlobId, bytes: Bytes, row: BlobRow): seq<Effect> {
    (if TooLong(bytes) then [WriteFile(Sha256(bytes), bytes)] else []) + [PutRow(id, row)]
  }

  /** A known hash is reused, and restored first if it was released; a new one is stored. */
  ghost function PutEffects(s: Store, bytes: Bytes, freshId: BlobId): seq<Effect> {
    match RowWith(s, Sha256(bytes))
    case Some(b) =>
      if s.blobs[b].releasedAt.Some? then StoreEffects(b, bytes, StoredRow(bytes).(size := s.blobs[b].size)) else []
    case None => StoreEffects(freshId, bytes, StoredRow(bytes))
  }

  ghost function PutId(s: Store, bytes: Bytes, freshId: BlobId): BlobId {
    match RowWith(s, Sha256(bytes))
    case Some(b) => b
    case None => freshId
  }

  ghost function Put(s: Store, bytes: Bytes, freshId: BlobId): Store {
    DoAll(s, PutEffects(s, bytes, freshId))
  }

  datatype BlobError = NoSuchBlob | Released(hash: Hash) | NoBytes

  function Get(s: Store, id: BlobId): Result<Bytes, BlobError> {
    if id !in s.blobs then Err(NoSuchBlob)
    else
      var row := s.blobs[id];
      if row.releasedAt.Some? then Err(Released(row.hash))
      else if row.isExternal then if row.hash in s.files then Ok(s.files[row.hash]) else Err(NoBytes)
      else if row.inlineBytes.Some? then Ok(row.inlineBytes.value)
      else Err(NoBytes)
  }

  function Reference(s: Store, r: Ref, pinned: bool): Store {
    if r.blob in s.blobs then s.(refs := s.refs[r := pinned]) else s
  }

  function Dereference(s: Store, r: Ref): Store {
    s.(refs := s.refs - {r})
  }

  /** Only live external content is released: the file goes, then the row says so. */
  function ReleaseEffects(s: Store, id: BlobId, now: Time): seq<Effect> {
    if id !in s.blobs || !s.blobs[id].isExternal || s.blobs[id].releasedAt.Some? then []
    else [RemoveFile(s.blobs[id].hash), PutRow(id, s.blobs[id].(isExternal := false, releasedAt := Some(now)))]
  }

  function Release(s: Store, id: BlobId, now: Time): Store {
    DoAll(s, ReleaseEffects(s, id, now))
  }

  predicate Referenced(s: Store, id: BlobId) {
    exists r | r in s.refs :: r.blob == id
  }

  function Orphans(s: Store): (ids: set<BlobId>)
    ensures forall b :: b in ids <==> b in s.blobs && !Referenced(s, b)
  {
    set b | b in s.blobs && !Referenced(s, b)
  }

  /** `order` is the list the orphan query returned. */
  ghost predicate ListsOrphans(s: Store, order: seq<BlobId>) {
    Distinct(order) && forall b :: b in order <==> b in Orphans(s)
  }

  function FileRemovals(s: Store, order: seq<BlobId>): (es: seq<Effect>)
    requires forall b | b in order :: b in s.blobs
    ensures |es| == |order| && forall i | 0 <= i < |es| :: es[i] == RemoveFile(s.blobs[order[i]].hash)
  {
    seq(|order|, i requires 0 <= i < |order| => RemoveFile(s.blobs[order[i]].hash))
  }

  /** Rows in one transaction, then the files one by one. */
  ghost function CompactEffects(s: Store, order: seq<BlobId>): seq<Effect>
    requires ListsOrphans(s, order)
  {
    if order == [] then [] else [DeleteRows(Orphans(s))] + FileRemovals(s, order)
  }

  ghost function Compact(s: Store, order: seq<BlobId>): Store
    requires ListsOrphans(s, order)
  {
    DoAll(s, CompactEffects(s, order))
  }

  // ----- the invariant

  /** What the schema enforces: one row per hash, the storage CHECK, references to rows that exist. */
  ghost predicate SchemaHolds(s: Store) {
    && (forall a, b | a in s.blobs && b in s.blobs && s.blobs[a].hash == s.blobs[b].hash :: a == b)
    && (forall b | b in s.blobs ::
          if s.blobs[b].isExternal then s.blobs[b].inlineBytes.None?
          else s.blobs[b].inlineBytes.Some? || s.blobs[b].releasedAt.Some?)
    && (forall r | r in s.refs :: r.blob in s.blobs)
  }

  /** Whatever is stored is what its hash names. */
  ghost predicate Authentic(s: Store) {
    && (forall h | h in s.files :: s.files[h] == h.bytes)
    && (forall b | b in s.blobs ::
          && s.blobs[b].size == |s.blobs[b].hash.bytes|
          && (s.blobs[b].inlineBytes.Some? ==> s.blobs[b].inlineBytes.value == s.blobs[b].hash.bytes))
  }

  /** No row claims bytes that are gone: external content that was not released is on disk. */
  ghost predicate NothingMissing(s: Store) {
    forall b | b in s.blobs && s.blobs[b].isExternal && s.blobs[b].releasedAt.None? :: s.blobs[b].hash in s.files
  }

  ghost predicate Valid(s: Store) {
    SchemaHolds(s) && Authentic(s) && NothingMissing(s)
  }

  /** A valid store answers every row it has not released with exactly the bytes that were put. */
  lemma GetReadsBack(s: Store, id: BlobId)
    requires Valid(s) && id in s.blobs
    ensures Get(s, id) == if s.blobs[id].releasedAt.Some? then Err(Released(s.blobs[id].hash))
        else Ok(s.blobs[id].hash.bytes)
  {
  }

  // ----- put

  lemma DoAllOne(s: Store, e: Effect)
    ensures DoAll(s, [e]) == Do(s, e)
  {
    assert DoAll(Do(s, e), [e][1..]) == Do(s, e);
  }

  lemma {:induction false} DoAllLast(s: Store, es: seq<Effect>)
    requires es != []
    ensures DoAll(s, es) == Do(DoAll(s, es[..|es| - 1]), es[|es| - 1])
    decreases |es|
  {
    if |es| == 1 {
      DoAllOne(s, es[0]);
    } else {
      DoAllLast(Do(s, es[0]), es[1..]);
      assert es[1..][..|es| - 2] == es[..|es| - 1][1..];
    }
  }

  lemma DoAllTwo(s: Store, e: Effect, f: Effect)
    ensures DoAll(s, [e, f]) == Do(Do(s, e), f)
  {
    assert [e, f][1..] == [f];
    DoAllOne(Do(s, e), f);
  }

  /** Storing under an id that is free, or under the row that already has this hash. */
  lemma StoreSafe(s: Store, id: BlobId, bytes: Bytes, row: BlobRow, k: nat)
    requires Valid(s) && row == StoredRow(bytes) && k <= |StoreEffects(id, bytes, row)|
    requires forall b | b in s.blobs && b != id :: s.blobs[b].hash != Sha256(bytes)
    ensures Valid(DoAll(s, StoreEffects(id, bytes, row)[..k]))
    ensures k == |StoreEffects(id, bytes, row)| ==>
              && DoAll(s, StoreEffects(id, bytes, row)[..k]).blobs == s.blobs[id := row]
              && DoAll(s, StoreEffects(id, bytes, row)[..k]).refs == s.refs
  {
    var es := StoreEffects(id, bytes, row);
    var e := PutRow(id, row);
    if TooLong(bytes) {
      var w := WriteFile(Sha256(bytes), bytes);
      assert es == [w, e];
      assert es[..k] == if k == 0 then [] else if k == 1 then [w] else [w, e];
      DoAllOne(s, w);
      DoAllTwo(s, w, e);
    } else {
      assert es == [e];
      assert es[..k] == if k == 0 then [] else [e];
      DoAllOne(s, e);
    }
  }

  /** Cutting a put, restoring or storing, between any two of its effects leaves the store valid. */
  lemma PutCrashSafe(s: Store, bytes: Bytes, freshId: BlobId, k: nat)
    requires Valid(s) && freshId !in s.blobs && k <= |PutEffects(s, bytes, freshId)|
    ensures Valid(DoAll(s, PutEffects(s, bytes, freshId)[..k]))
  {
    var id := PutId(s, bytes, freshId);
    if PutEffects(s, bytes, freshId) != [] {
      StoreSafe(s, id, bytes, StoredRow(bytes), k);
    }
  }

  /** Whatever state the store is in, a completed put returns an id that reads back what was put. */
  lemma PutReadsBack(s: Store, bytes: Bytes, freshId: BlobId)
    requires Valid(s) && freshId !in s.blobs
    ensures var t, id := Put(s, bytes, freshId), PutId(s, bytes, freshId);
            && Valid(t) && t.refs == s.refs && t.blobs.Keys == s.blobs.Keys + {id}
            && t.blobs[id].hash == Sha256(bytes) && t.blobs[id].releasedAt.None? && Get(t, id) == Ok(bytes)
            && (forall b | b in s.blobs && b != id :: t.blobs[b] == s.blobs[b])
  {
    var es := PutEffects(s, bytes, freshId);
    var id := PutId(s, bytes, freshId);
    PutCrashSafe(s, bytes, freshId, |es|);
    assert es[..|es|] == es;
    if es != [] {
      StoreSafe(s, id, bytes, StoredRow(bytes), |es|);
    }
    GetReadsBack(Put(s, bytes, freshId), id);
  }

  /** Identical content is stored once: the second put has nothing to do and returns the first one's id. */
  lemma PutTwiceIsOnce(s: Store, bytes: Bytes, id1: BlobId, id2: BlobId)
    requires Valid(s) && id1 !in s.blobs
    ensures var t := Put(s, bytes, id1);
            PutId(t, bytes, id2) == PutId(s, bytes, id1) && PutEffects(t, bytes, id2) == []
  {
    PutReadsBack(s, bytes, id1);
  }

  // ----- release

  /**
   * A release that does something makes `get` refuse, and putting the bytes again brings back the same id and content.
   */
  lemma ReleaseThenPut(s: Store, id: BlobId, now: Time, freshId: BlobId)
    requires Valid(s) && freshId !in s.blobs && ReleaseEffects(s, id, now) != []
    ensures var t, bytes := Release(s, id, now), s.blobs[id].hash.bytes;
            && Valid(t) && t.refs == s.refs && Get(s, id) == Ok(bytes) && Get(t, id) == Err(Released(s.blobs[id].hash))
            && PutId(t, bytes, freshId) == id && Get(Put(t, bytes, freshId), id) == Ok(bytes)
  {
    var remove, mark := RemoveFile(s.blobs[id].hash),
        PutRow(id, s.blobs[id].(isExternal := false, releasedAt := Some(now)));
    DoAllTwo(s, remove, mark);
    var t := Release(s, id, now);
    assert Valid(t);
    PutReadsBack(t, s.blobs[id].hash.bytes, freshId);
  }

  lemma ReleaseKeepsValid(s: Store, id: BlobId, now: Time)
    requires Valid(s)
    ensures var t := Release(s, id, now);
            && Valid(t) && t.refs == s.refs && t.blobs.Keys == s.blobs.Keys
            && (forall b | b in s.blobs :: t.blobs[b].hash == s.blobs[b].hash && (b != id ==> t.blobs[b] == s.blobs[b]))
  {
    if ReleaseEffects(s, id, now) != [] {
      DoAllTwo(s, RemoveFile(s.blobs[id].hash), PutRow(id, s.blobs[id].(isExternal := false, releasedAt := Some(now))));
    }
  }

  /**
   * Release is the one operation a crash can catch out: cut after its first effect, its row claims bytes that are gone.
   */
  lemma ReleaseCutLosesContent(s: Store, id: BlobId, now: Time)
    requires Valid(s)
    ensures (exists k: nat | k <= |ReleaseEffects(s, id, now)| ::
        !Valid(DoAll(s, ReleaseEffects(s, id, now)[..k]))) <==>
            id in s.blobs && s.blobs[id].isExternal && s.blobs[id].releasedAt.None?
  {
    var es := ReleaseEffects(s, id, now);
    if es != [] {
      assert es[..1] == [es[0]];
      DoAllOne(s, es[0]);
      assert !NothingMissing(DoAll(s, es[..1]));
    } else {
      forall k: nat | k <= |es|
        ensures Valid(DoAll(s, es[..k]))
      {
        assert es[..k] == [];
      }
    }
  }

  // ----- compaction

  /** Removing files that no row names costs no content. */
  lemma {:induction false} RemovalsSafe(s: Store, rows: Store, order: seq<BlobId>, k: nat)
    requires Valid(s) && (forall b | b in order :: b in rows.blobs) && k <= |order|
    requires forall b, o | b in s.blobs && o in order :: s.blobs[b].hash != rows.blobs[o].hash
    ensures var t := DoAll(s, FileRemovals(rows, order)[..k]);
            Valid(t) && t.blobs == s.blobs && t.refs == s.refs && forall i | 0 <= i < k ::
                rows.blobs[order[i]].hash !in t.files
  {
    var es := FileRemovals(rows, order)[..k];
    if k > 0 {
      RemovalsSafe(s, rows, order, k - 1);
      DoAllLast(s, es);
      assert es[..k - 1] == FileRemovals(rows, order)[..k - 1];
      assert order[k - 1] in order;
    }
  }

  /** The rows that survive, with the references that keep them. */
  ghost function KeptRows(s: Store): Store {
    Do(s, DeleteRows(Orphans(s)))
  }

  lemma KeptRowsValid(s: Store)
    requires Valid(s)
    ensures var t := KeptRows(s);
            Valid(t) && t.refs == s.refs && t.files == s.files
            && (forall b :: b in t.blobs <==> b in s.blobs && Referenced(s, b))
            && (forall b | b in t.blobs :: t.blobs[b] == s.blobs[b])
  {
    var t := KeptRows(s);
    forall r | r in s.refs
      ensures r.blob !in Orphans(s)
    {
      assert Referenced(s, r.blob);
    }
    assert t.refs == s.refs;
  }

  /** Rows first and files afterwards: wherever a crash cuts the sweep, no row is left without its bytes. */
  lemma CompactCrashSafe(s: Store, order: seq<BlobId>, k: nat)
    requires Valid(s) && ListsOrphans(s, order) && k <= |CompactEffects(s, order)|
    ensures var t := DoAll(s, CompactEffects(s, order)[..k]);
            && Valid(t) && t.refs == s.refs
            && (k > 0 ==> t.blobs == KeptRows(s).blobs && forall i | 0 <= i < k - 1 ::
                s.blobs[order[i]].hash !in t.files)
  {
    var es := CompactEffects(s, order);
    if k == 0 {
      assert es[..k] == [];
    } else {
      KeptRowsValid(s);
      assert es[..k] == [DeleteRows(Orphans(s))] + FileRemovals(s, order)[..k - 1];
      assert es[..k][1..] == FileRemovals(s, order)[..k - 1];
      RemovalsSafe(KeptRows(s), s, order, k - 1);
    }
  }

  /**
   * A finished sweep keeps exactly what something references, reads it all back as before, and leaves a second sweep
   * nothing.
   */
  lemma CompactKeepsReferenced(s: Store, order: seq<BlobId>)
    requires Valid(s) && ListsOrphans(s, order)
    ensures var t := Compact(s, order);
            && Valid(t) && t.refs == s.refs
            && (forall b :: b in t.blobs <==> b in s.blobs && Referenced(s, b))
            && (forall b | b in t.blobs :: t.blobs[b] == s.blobs[b] && Get(t, b) == Get(s, b))
            && (forall b | b in Orphans(s) :: s.blobs[b].hash !in t.files)
            && Orphans(t) == {}
  {
    var es := CompactEffects(s, order);
    var t := Compact(s, order);
    KeptRowsValid(s);
    CompactCrashSafe(s, order, |es|);
    assert es[..|es|] == es;
    if order == [] {
      assert forall b :: b !in Orphans(s);
    }
    forall b | b in t.blobs
      ensures Get(t, b) == Get(s, b) && Referenced(t, b)
    {
      GetReadsBack(t, b);
      GetReadsBack(s, b);
      var r :| r in s.refs && r.blob == b;
      assert r in t.refs;
    }
    forall b | b in Orphans(s)
      ensures s.blobs[b].hash !in t.files
    {
      assert b in order;
    }
  }

  /**
   * The opposite order would lose content: removing one live orphan's file first leaves its row claiming bytes that are
   * gone.
   */
  lemma FilesFirstLosesContent(s: Store, b: BlobId)
    requires Valid(s) && b in Orphans(s) && s.blobs[b].isExternal && s.blobs[b].releasedAt.None?
    ensures var t := Do(s, RemoveFile(s.blobs[b].hash));
            !Valid(t) && forall freshId :: PutId(t, s.blobs[b].hash.bytes, freshId) == b
                                           && Get(Put(t, s.blobs[b].hash.bytes, freshId), b) == Err(NoBytes)
  {
    var t := Do(s, RemoveFile(s.blobs[b].hash));
    assert !NothingMissing(t);
  }
}
