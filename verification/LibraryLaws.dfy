/**
 * What flags, writes, sweeps and blobs leave in the rows, and what a flag is worth over runs
 * (packages/db/src/object-store.ts, blob-store.ts).
 */
module LibraryLaws {
  import opened Wrappers
  import opened Blobs
  import opened Versions
  import opened VersionRuns
  import opened Crashes

  // ----- flags

  /** Marking flags every version named, and pins it if asked; nothing is ever unpinned or unflagged by it. */
  lemma MarkLaw(lib: Library, vs: set<Id>, pinned: bool)
    ensures var t := MarkRunReferenced(lib, vs, pinned);
      && t.store == lib.store && t.objects == lib.objects && t.versions.Keys == lib.versions.Keys
      && forall v | v in lib.versions ::
           if v in vs
           then t.versions[v].runReferenced && (t.versions[v].pinned <==> pinned || lib.versions[v].pinned)
                && t.versions[v] == lib.versions[v].(runReferenced := true, pinned := t.versions[v].pinned)
           else t.versions[v] == lib.versions[v]
  {
  }

  /** Pinning and unpinning set exactly that flag of exactly the versions named. */
  lemma PinLaw(lib: Library, vs: set<Id>, pinned: bool)
    ensures var t := SetPinned(lib, vs, pinned);
      && t.store == lib.store && t.objects == lib.objects && t.versions.Keys == lib.versions.Keys
      && forall v | v in lib.versions ::
           if v in vs then t.versions[v].pinned == pinned && t.versions[v] == lib.versions[v].(pinned := pinned)
           else t.versions[v] == lib.versions[v]
  {
  }

  /** Compacting runs clears exactly the flag their versions had. */
  lemma ClearLaw(lib: Library, vs: set<Id>)
    ensures var t := ClearRunReferenced(lib, vs);
      && t.store == lib.store && t.objects == lib.objects && t.versions.Keys == lib.versions.Keys
      && forall v | v in lib.versions ::
           if v in vs then !t.versions[v].runReferenced && t.versions[v] == lib.versions[v].(runReferenced := false)
           else t.versions[v] == lib.versions[v]
  {
  }

  // ----- what a flag is worth

  /** The one step that takes the flag of a run from `v`. */
  predicate Clears(op: CrashOp, v: Id) {
    op.Whole? && op.op.OClearRunReferenced? && v in op.op.versions
  }

  /** The one step that unpins `v`. */
  predicate Unpins(op: CrashOp, v: Id) {
    op.Whole? && op.op.OSetPinned? && v in op.op.versions && !op.op.pinned
  }

  /** Rows that are there before and after are the same, but for the two flags. */
  ghost predicate FlagsStay(lib: Library, t: Library, v: Id, clears: bool, unpins: bool) {
    v in lib.versions && v in t.versions ==>
      && (lib.versions[v].runReferenced && !clears ==> t.versions[v].runReferenced)
      && (lib.versions[v].pinned && !unpins ==> t.versions[v].pinned)
  }

  lemma RowsStay(lib: Library, t: Library, v: Id)
    requires v in lib.versions && v in t.versions ==> t.versions[v] == lib.versions[v]
    ensures FlagsStay(lib, t, v, false, false)
  {
  }

  lemma AppendKeepsRow(lib: Library, o: Id, content: Bytes, delta: Option<ContentDelta>, ids: FreshIds, now: Time,
      v: Id)
    requires v in lib.versions && ids.version !in lib.versions
    ensures v in AppendVersion(lib, o, content, delta, ids, now).versions
    ensures AppendVersion(lib, o, content, delta, ids, now).versions[v] == lib.versions[v]
  {
    hide Hold, PutId, LatestOf;
  }

  lemma WriteKeepsRow(lib: Library, op: LibraryOp, v: Id)
    requires Proper(lib, op) && (op.OWrite? || op.OEdit?) && v in lib.versions
    ensures v in Next(lib, op).versions && Next(lib, op).versions[v] == lib.versions[v]
  {
    match op
    case OWrite(input, ids, now) =>
      var o := Target(lib, input, ids);
      AppendKeepsRow(lib, o, input.content, input.delta, ids, now, v);
      AppendKeepsRow(Created(lib, input, ids), o, input.content, input.delta, ids, now, v);
      hide AppendVersion, LatestOf, Target;
    case OEdit(o, title, content, delta, ids, now) =>
      AppendKeepsRow(lib, o, content, delta, ids, now, v);
      hide AppendVersion, LatestOf;
  }

  lemma WholeKeepsFlags(lib: Library, op: LibraryOp, v: Id)
    requires Proper(lib, op) && v in lib.versions
    ensures FlagsStay(lib, Next(lib, op), v, Clears(Whole(op), v), Unpins(Whole(op), v))
  {
    hide Write, AppendTo, Put, Release, Reference, Dereference, CompactBlobs, Candidates;
    match op
    case OWrite(_, _, _) => WriteKeepsRow(lib, op, v);
    case OEdit(_, _, _, _, _, _) => WriteKeepsRow(lib, op, v);
    case OCompactBlobs(orphans) => SweepKeepsRows(lib, orphans);
    case _ =>
  }

  lemma SweepKeepsRows(lib: Library, orphans: seq<BlobId>)
    requires ListsOrphans(lib.store, orphans)
    ensures CompactBlobs(lib, orphans).versions == lib.versions
  {
  }

  lemma CutKeepsRow(lib: Library, op: CrashOp, v: Id)
    requires ProperCut(lib, op) && !op.Whole? && v in lib.versions
    ensures v in After(lib, op).versions ==> After(lib, op).versions[v] == lib.versions[v]
  {
    match op
    case WriteCut(input, ids, now, cut) =>
      var o := Target(lib, input, ids);
      AppendKeepsRow(lib, o, input.content, input.delta, ids, now, v);
      AppendKeepsRow(Created(lib, input, ids), o, input.content, input.delta, ids, now, v);
      hide AppendVersion, LatestOf, Target, StoreAtCut;
    case EditCut(o, content, delta, ids, now, cut) =>
      AppendKeepsRow(lib, o, content, delta, ids, now, v);
      hide AppendVersion, LatestOf, StoreAtCut;
    case _ =>
  }

  lemma StepKeepsFlags(lib: Library, op: CrashOp, v: Id)
    requires Intact(lib) && ProperCut(lib, op) && v in lib.versions
    ensures lib.versions[v].runReferenced && !Clears(op, v) ==>
      v in After(lib, op).versions && After(lib, op).versions[v].runReferenced
    ensures lib.versions[v].pinned && !Unpins(op, v) ==>
      v in After(lib, op).versions && After(lib, op).versions[v].pinned
  {
    AfterIntact(lib, op);
    hide Intact, Next, Proper;
    if op.Whole? {
      WholeKeepsFlags(lib, op.op, v);
    } else {
      CutKeepsRow(lib, op, v);
      RowsStay(lib, After(lib, op), v);
    }
    hide After, ProperCut;
  }

  /**
   * A version a run was marked to have used is there, and marked, after any run of the store, crashes and sweeps
   * included, in which no compaction of runs takes its mark away.
   */
  lemma {:induction false} MarkedSurvives(states: seq<Library>, ops: seq<CrashOp>, v: Id, i: nat, j: nat)
    requires IsCrashRun(states, ops) && Intact(states[0]) && i < j <= |ops|
    requires ops[i].Whole? && ops[i].op.OMarkRunReferenced? && v in ops[i].op.versions && v in states[i].versions
    requires forall k | i < k < j :: !Clears(ops[k], v)
    ensures v in states[j].versions && states[j].versions[v].runReferenced
  {
    if j == i + 1 {
      MarkLaw(states[i], ops[i].op.versions, ops[i].op.pinned);
    } else {
      MarkedSurvives(states, ops, v, i, j - 1);
      CrashRunsStayIntact(states, ops, j - 1);
      hide Intact, After, ProperCut;
      StepKeepsFlags(states[j - 1], ops[j - 1], v);
    }
  }

  /** And a version somebody pinned is there, and pinned, for as long as nobody unpins it. */
  lemma {:induction false} PinnedSurvives(states: seq<Library>, ops: seq<CrashOp>, v: Id, i: nat, j: nat)
    requires IsCrashRun(states, ops) && Intact(states[0]) && i < j <= |ops| && v in states[i].versions
    requires ops[i].Whole? && ops[i].op.OSetPinned? && v in ops[i].op.versions && ops[i].op.pinned
    requires forall k | i < k < j :: !Unpins(ops[k], v)
    ensures v in states[j].versions && states[j].versions[v].pinned
  {
    if j == i + 1 {
      PinLaw(states[i], ops[i].op.versions, ops[i].op.pinned);
    } else {
      PinnedSurvives(states, ops, v, i, j - 1);
      CrashRunsStayIntact(states, ops, j - 1);
      hide Intact, After, ProperCut;
      StepKeepsFlags(states[j - 1], ops[j - 1], v);
    }
  }

  // ----- the sweep, in fields

  /**
   * A sweep takes exactly the versions nobody marked or pinned, that are older than the window and not named the
   * latest.
   */
  lemma SweepLaw(lib: Library, order: seq<Id>, now: Time, windowSeconds: int)
    requires ListsCandidates(lib, order, now, windowSeconds)
    ensures var t := CompactVersions(lib, order, now, windowSeconds);
      && t.objects == lib.objects
      && (forall v | v in t.versions :: v in lib.versions && t.versions[v] == lib.versions[v])
      && forall v | v in lib.versions ::
           v !in t.versions <==>
             && !lib.versions[v].runReferenced && !lib.versions[v].pinned
             && lib.versions[v].createdAt < now - windowSeconds
             && lib.versions[v].objectId in lib.objects
             && lib.objects[lib.versions[v].objectId].latestVersionId != Some(v)
  {
    assert order[..|order|] == order;
  }

  // ----- where a write lands

  /** The object known outside by this identity comes first, then the one the caller names, then a new one. */
  lemma TargetLaw(lib: Library, input: WriteInput, ids: FreshIds)
    requires ExternalUnique(lib.objects)
    ensures forall o | o in lib.objects && input.external.Some? && lib.objects[o].external == input.external ::
      Target(lib, input, ids) == o
    ensures (input.external.None? || forall o | o in lib.objects :: lib.objects[o].external != input.external) ==>
      Target(lib, input, ids) == if input.objectId.Some? then input.objectId.value else ids.obj
  {
  }

  /**
   * A write to an object that is there sets its title; it adds a version, and names it the latest, exactly when the
   * content is not what the highest version holds.
   */
  lemma AppendToLaw(lib: Library, o: Id, title: Id, content: Bytes, delta: Option<ContentDelta>, ids: FreshIds,
      now: Time)
    requires LibraryValid(lib) && o in lib.objects && Fresh(lib, ids)
    ensures var t, latest := AppendTo(lib, o, title, content, delta, ids, now), lib.objects[o].latestVersionId.value;
      && o in t.objects && t.objects == lib.objects[o := t.objects[o]] && t.objects[o].title == title
      && t.objects[o].external == lib.objects[o].external && t.objects[o].deletedAt == lib.objects[o].deletedAt
      && latest in lib.versions
      && (lib.versions[latest].contentHash.bytes == content ==>
            t.store == lib.store && t.versions == lib.versions
            && t.objects[o].latestVersionId == lib.objects[o].latestVersionId)
      && (lib.versions[latest].contentHash.bytes != content ==>
            && t.objects[o].latestVersionId == Some(ids.version)
            && ids.version in t.versions && t.versions == lib.versions[ids.version := t.versions[ids.version]]
            && t.versions[ids.version].contentHash.bytes == content && t.versions[ids.version].objectId == o
            && t.versions[ids.version].ordinal == lib.versions[latest].ordinal + 1
            && t.versions[ids.version].createdAt == now
            && !t.versions[ids.version].pinned && !t.versions[ids.version].runReferenced)
  {
    NamedLatest(lib, o);
    NewRow(lib, o, content, delta, ids, now);
    hide LibraryValid, LatestOf, AppendVersion, Fresh;
    var t, latest := AppendTo(lib, o, title, content, delta, ids, now), lib.objects[o].latestVersionId;
    if lib.versions[latest.value].contentHash.bytes == content {
      assert t == lib.(objects := lib.objects[o := lib.objects[o].(title := title)]);
      hide AppendTo;
    } else {
      var row := lib.objects[o].(title := title, latestVersionId := Some(ids.version));
      assert t == AppendVersion(lib, o, content, delta, ids, now).(objects := lib.objects[o := row]);
      hide AppendTo;
    }
  }

  lemma NamedLatest(lib: Library, o: Id)
    requires LibraryValid(lib) && o in lib.objects
    ensures var latest := lib.objects[o].latestVersionId;
      latest.Some? && latest.value in lib.versions && LatestOf(lib.versions, o) == latest
  {
    LatestIsNamed(lib, o);
    hide Valid, VersionsHeld, HeldForVersions, OrdinalsUnique, ExternalUnique, LatestOf;
    assert IsLatest(lib.versions, o, lib.objects[o].latestVersionId.value);
  }

  lemma NewRow(lib: Library, o: Id, content: Bytes, delta: Option<ContentDelta>, ids: FreshIds, now: Time)
    ensures var t, latest := AppendVersion(lib, o, content, delta, ids, now), LatestOf(lib.versions, o);
      && ids.version in t.versions && t.versions == lib.versions[ids.version := t.versions[ids.version]]
      && t.objects == lib.objects
      && t.versions[ids.version].contentHash.bytes == content && t.versions[ids.version].objectId == o
      && t.versions[ids.version].ordinal == 1 + (if latest.Some? then lib.versions[latest.value].ordinal else 0)
      && t.versions[ids.version].createdAt == now
      && !t.versions[ids.version].pinned && !t.versions[ids.version].runReferenced
  {
    hide Hold, PutId, LatestOf;
  }

  /** A new version holds its delta exactly when the delta is shorter than the content, and then all of it. */
  lemma DeltaLaw(lib: Library, o: Id, content: Bytes, delta: Option<ContentDelta>, ids: FreshIds, now: Time)
    ensures var versions := AppendVersion(lib, o, content, delta, ids, now).versions;
      && ids.version in versions
      && var row := versions[ids.version];
         && row.contentHash.bytes == content
         && (row.deltaBlob.Some? <==> delta.Some? && |delta.value.body| < |content|)
         && (row.deltaHash.Some? <==> row.deltaBlob.Some?) && (row.deltaSummary.Some? <==> row.deltaBlob.Some?)
         && (row.deltaBlob.Some? ==>
               row.deltaHash.value.bytes == delta.value.body && row.deltaSummary.value == delta.value.summary)
  {
    hide LatestOf, PutId, Hold;
  }

  /** An object that is deleted keeps the first deletion's stamp, and one restored has none. */
  lemma DeletedLaw(lib: Library, o: Id, at: Option<Time>)
    ensures o !in lib.objects ==> SetDeleted(lib, o, at) == lib
    ensures o in lib.objects ==> var t := SetDeleted(lib, o, at);
      && t == lib.(objects := t.objects) && o in t.objects && t.objects == lib.objects[o := t.objects[o]]
      && t.objects[o] == lib.objects[o].(deletedAt := t.objects[o].deletedAt)
      && t.objects[o].deletedAt == (if at.Some? && lib.objects[o].deletedAt.Some? then lib.objects[o].deletedAt else at)
  {
  }

  // ----- blobs

  /**
   * New content of more than 64 KiB goes to a file of its hash and leaves nothing in its row; other content stays in
   * the row.
   */
  lemma NewContentLaw(s: Store, bytes: Bytes, freshId: BlobId)
    requires Valid(s) && freshId !in s.blobs && forall b | b in s.blobs :: s.blobs[b].hash != Sha256(bytes)
    ensures var t, long := Put(s, bytes, freshId), |bytes| > 65536;
      && PutId(s, bytes, freshId) == freshId && t.refs == s.refs && freshId in t.blobs
      && t.blobs == s.blobs[freshId := t.blobs[freshId]]
      && t.files == (if long then s.files[Sha256(bytes) := bytes] else s.files)
      && t.blobs[freshId].hash == Sha256(bytes) && t.blobs[freshId].size == |bytes|
      && t.blobs[freshId].isExternal == long && t.blobs[freshId].releasedAt.None?
      && t.blobs[freshId].inlineBytes == (if long then None else Some(bytes))
  {
    var row := StoredRow(bytes);
    if TooLong(bytes) {
      assert StoreEffects(freshId, bytes, row) == [WriteFile(Sha256(bytes), bytes), PutRow(freshId, row)];
      DoAllTwo(s, WriteFile(Sha256(bytes), bytes), PutRow(freshId, row));
    } else {
      assert StoreEffects(freshId, bytes, row) == [PutRow(freshId, row)];
      DoAllOne(s, PutRow(freshId, row));
    }
  }

  /** A release of external content removes its file and stamps its row; anything else it leaves alone. */
  lemma ReleaseLaw(s: Store, id: BlobId, now: Time)
    ensures if id in s.blobs && s.blobs[id].isExternal && s.blobs[id].releasedAt.None?
      then Release(s, id, now) == s.(
        files := s.files - {s.blobs[id].hash},
        blobs := s.blobs[id := s.blobs[id].(isExternal := false, releasedAt := Some(now))])
      else Release(s, id, now) == s
  {
    if ReleaseEffects(s, id, now) != [] {
      DoAllTwo(s, RemoveFile(s.blobs[id].hash), PutRow(id, s.blobs[id].(isExternal := false, releasedAt := Some(now))));
    }
  }

  /** A reference is held from the moment it is made until it is given up, and a blob with one outlives every sweep. */
  lemma ReferenceLaw(s: Store, r: Ref, pinned: bool, order: seq<BlobId>)
    requires Valid(s) && r.blob in s.blobs && ListsOrphans(Reference(s, r, pinned), order)
    ensures var t := Reference(s, r, pinned);
      && t == s.(refs := t.refs) && r in t.refs && t.refs == s.refs[r := t.refs[r]] && t.refs[r] == pinned
      && Valid(t) && r.blob in Compact(t, order).blobs && r in Compact(t, order).refs
    ensures r !in Dereference(s, r).refs && Dereference(s, r) == s.(refs := s.refs - {r})
  {
    var t := Reference(s, r, pinned);
    assert Valid(t) by {
      hide Compact, ListsOrphans;
    }
    assert Referenced(t, r.blob);
    hide Valid, Compact;
    CompactKeepsReferenced(t, order);
  }
}
