/** Runs over the content store: writes, edits, flags, releases, other stores' blobs, and both sweeps, in any order. */
module VersionRuns {
  import opened Wrappers
  import opened Blobs
  import opened Versions

  datatype LibraryOp =
    | OWrite(input: WriteInput, ids: FreshIds, now: Time)
    | OEdit(obj: Id, title: Option<Id>, content: Bytes, delta: Option<ContentDelta>, ids: FreshIds, now: Time)
    | OSetDeleted(obj: Id, at: Option<Time>)
    | OMarkRunReferenced(versions: set<Id>, pinned: bool)
    | OSetPinned(versions: set<Id>, pinned: bool)
    | OClearRunReferenced(versions: set<Id>)
    | OCompactVersions(order: seq<Id>, now: Time, windowSeconds: int)
    | OCompactBlobs(orphans: seq<BlobId>)
    | ORelease(blob: BlobId, now: Time)
    | OPut(bytes: Bytes, freshId: BlobId)
    | OReference(r: Ref, pinned: bool)
    | ODereference(r: Ref)

  /**
   * What the system guarantees of each step: generated ids are new, sweeps act on what their query listed, other stores
   * hold their own references.
   */
  ghost predicate Proper(lib: Library, op: LibraryOp) {
    match op
    case OWrite(_, ids, _) => Fresh(lib, ids)
    case OEdit(o, _, _, _, ids, _) => o in lib.objects && Fresh(lib, ids)
    case OCompactVersions(order, now, windowSeconds) => ListsCandidates(lib, order, now, windowSeconds)
    case OCompactBlobs(orphans) => ListsOrphans(lib.store, orphans)
    case OPut(_, freshId) => freshId !in lib.store.blobs
    case OReference(r, _) => r.ownerKind != ObjectVersion
    case ODereference(r) => r.ownerKind != ObjectVersion
    case _ => true
  }

  ghost function Next(lib: Library, op: LibraryOp): Library
    requires Proper(lib, op)
  {
    match op
    case OWrite(input, ids, now) => Write(lib, input, ids, now)
    case OEdit(o, title, content, delta, ids, now) => Edit(lib, o, title, content, delta, ids, now)
    case OSetDeleted(o, at) => SetDeleted(lib, o, at)
    case OMarkRunReferenced(vs, pinned) => MarkRunReferenced(lib, vs, pinned)
    case OSetPinned(vs, pinned) => SetPinned(lib, vs, pinned)
    case OClearRunReferenced(vs) => ClearRunReferenced(lib, vs)
    case OCompactVersions(order, now, windowSeconds) => CompactVersions(lib, order, now, windowSeconds)
    case OCompactBlobs(orphans) => CompactBlobs(lib, orphans)
    case ORelease(blob, now) => lib.(store := Release(lib.store, blob, now))
    case OPut(bytes, freshId) => lib.(store := Put(lib.store, bytes, freshId))
    case OReference(r, pinned) => lib.(store := Reference(lib.store, r, pinned))
    case ODereference(r) => lib.(store := Dereference(lib.store, r))
  }

  // ----- every step keeps the library valid

  lemma StoreStepKeepsValid(lib: Library, op: LibraryOp)
    requires LibraryValid(lib) && Proper(lib, op) && (op.ORelease? || op.OPut? || op.OReference? || op.ODereference?)
    ensures LibraryValid(Next(lib, op))
  {
    match op
    case ORelease(blob, now) =>
      ReleaseKeepsValid(lib.store, blob, now);
      SameHoldings(lib, Release(lib.store, blob, now));
    case OPut(bytes, freshId) =>
      PutReadsBack(lib.store, bytes, freshId);
      SameHoldings(lib, Put(lib.store, bytes, freshId));
    case OReference(r, pinned) => OtherReferenceKeepsValid(lib, r, pinned);
    case ODereference(r) => OtherDereferenceKeepsValid(lib, r);
  }

  lemma OtherReferenceKeepsValid(lib: Library, r: Ref, pinned: bool)
    requires LibraryValid(lib) && r.ownerKind != ObjectVersion
    ensures LibraryValid(lib.(store := Reference(lib.store, r, pinned)))
  {
    assert Valid(Reference(lib.store, r, pinned));
    hide Valid;
    SameHoldings(lib, Reference(lib.store, r, pinned));
  }

  lemma OtherDereferenceKeepsValid(lib: Library, r: Ref)
    requires LibraryValid(lib) && r.ownerKind != ObjectVersion
    ensures LibraryValid(lib.(store := Dereference(lib.store, r)))
  {
    DereferenceFacts(lib.store, r);
    hide Valid, Dereference, Numbered;
    OthersStillHeld(lib.store, Dereference(lib.store, r), lib.versions, r);
  }

  lemma OthersStillHeld(s: Store, t: Store, versions: VersionTable, r: Ref)
    requires VersionsHeld(s, versions) && HeldForVersions(s.refs, versions) && r.ownerKind != ObjectVersion
    requires t.blobs == s.blobs && t.refs.Keys == s.refs.Keys - {r}
    ensures VersionsHeld(t, versions) && HeldForVersions(t.refs, versions)
  {
    forall v | v in versions
      ensures Holds(t, v, versions[v])
    {
      assert Holds(s, v, versions[v]);
    }
  }

  lemma FlagStepKeepsValid(lib: Library, op: LibraryOp)
    requires LibraryValid(lib) && Proper(lib, op)
    requires op.OSetDeleted? || op.OMarkRunReferenced? || op.OSetPinned? || op.OClearRunReferenced?
    ensures SameVersions(lib, Next(lib, op)) && LibraryValid(Next(lib, op))
  {
    hide LibraryValid;
    SameVersionsKeepValid(lib, Next(lib, op));
  }

  lemma NextKeepsValid(lib: Library, op: LibraryOp)
    requires LibraryValid(lib) && Proper(lib, op)
    ensures LibraryValid(Next(lib, op))
  {
    hide LibraryValid, Write, AppendTo, CompactVersions, CompactBlobs;
    match op
    case OWrite(input, ids, now) => WriteKeepsValid(lib, input, ids, now);
    case OEdit(o, title, content, delta, ids, now) =>
      AppendToKeepsValid(lib, o, if title.Some? then title.value else lib.objects[o].title, content, delta, ids, now);
    case OCompactVersions(order, now, windowSeconds) => CompactsExactlyCompactable(lib, order, now, windowSeconds);
    case OCompactBlobs(orphans) => CompactBlobsKeepsValid(lib, orphans);
    case _ =>
      if op.ORelease? || op.OPut? || op.OReference? || op.ODereference? {
        StoreStepKeepsValid(lib, op);
      } else {
        FlagStepKeepsValid(lib, op);
      }
  }

  // ----- what no step changes

  /** The number of the latest version, zero for an object nobody has written. */
  ghost function Top(lib: Library, o: Id): int {
    if o in lib.objects && lib.objects[o].latestVersionId.Some? && lib.objects[o].latestVersionId.value in lib.versions
    then lib.versions[lib.objects[o].latestVersionId.value].ordinal
    else 0
  }

  /** Rows that survive are as they were written, numbers never fall back, and a new row gets the next number. */
  ghost predicate Follows(lib: Library, t: Library) {
    && (forall v | v in lib.versions && v in t.versions :: SameText(lib.versions[v], t.versions[v]))
    && (forall o | o in lib.objects :: o in t.objects && Top(lib, o) <= Top(t, o))
    && (forall v | v in t.versions && v !in lib.versions ::
        t.versions[v].ordinal == Top(lib, t.versions[v].objectId) + 1)
  }

  predicate SameText(v: VersionRow, w: VersionRow) {
    && w.objectId == v.objectId && w.ordinal == v.ordinal && w.contentHash == v.contentHash
    && w.deltaHash == v.deltaHash && w.deltaSummary == v.deltaSummary
  }

  lemma TopIsHighest(lib: Library, o: Id)
    requires Numbered(lib)
    ensures o in lib.objects ==>
        lib.objects[o].latestVersionId.Some? && lib.objects[o].latestVersionId.value in lib.versions
                                 && LatestOf(lib.versions, o) == lib.objects[o].latestVersionId
    ensures Top(lib, o) >= 0 && forall v | v in lib.versions && lib.versions[v].objectId == o ::
        lib.versions[v].ordinal <= Top(lib, o)
  {
    if o in lib.objects {
      LatestIsNamed(lib, o);
      assert IsLatest(lib.versions, o, lib.objects[o].latestVersionId.value);
    }
  }

  lemma AppendFollows(lib: Library, t: Library, o: Id, v: Id)
    requires LibraryValid(lib) && v !in lib.versions && v in t.versions
        && t.versions == lib.versions[v := t.versions[v]]
    requires t.versions[v].objectId == o && t.versions[v].ordinal == Top(lib, o) + 1
    requires o in t.objects && t.objects == lib.objects[o := t.objects[o]] && t.objects[o].latestVersionId == Some(v)
    ensures Follows(lib, t)
  {
    hide Valid, VersionsHeld, HeldForVersions, ExternalUnique, OrdinalsUnique;
    forall x | x in lib.objects
      ensures x in t.objects && Top(lib, x) <= Top(t, x)
    {
      TopIsHighest(lib, x);
    }
  }

  lemma AppendToFollows(lib: Library, o: Id, title: Id, content: Bytes, delta: Option<ContentDelta>, ids: FreshIds,
      now: Time)
    requires LibraryValid(lib) && o in lib.objects && Fresh(lib, ids)
    ensures Follows(lib, AppendTo(lib, o, title, content, delta, ids, now))
  {
    hide LibraryValid, AppendVersion, LatestOf, Follows;
    AppendFromValid(lib, lib, o, content, delta, ids, now);
    var t := AppendTo(lib, o, title, content, delta, ids, now);
    if lib.versions[lib.objects[o].latestVersionId.value].contentHash == Sha256(content) {
      SameVersionsFollow(lib, t);
    } else {
      AppendFollows(lib, t, o, ids.version);
    }
  }

  lemma WriteFollows(lib: Library, input: WriteInput, ids: FreshIds, now: Time)
    requires LibraryValid(lib) && Fresh(lib, ids)
    ensures Follows(lib, Write(lib, input, ids, now))
  {
    hide LibraryValid, AppendVersion, AppendTo, LatestOf, Follows;
    var o := Target(lib, input, ids);
    if o in lib.objects {
      AppendToFollows(lib, o, input.title, input.content, input.delta, ids, now);
    } else {
      var created := lib.(objects := lib.objects[o := ObjectRecord(input.external, input.title, None, None)]);
      AppendFromValid(lib, created, o, input.content, input.delta, ids, now);
      AppendFollows(lib, Write(lib, input, ids, now), o, ids.version);
    }
  }

  lemma SameVersionsFollow(lib: Library, t: Library)
    requires t.versions.Keys == lib.versions.Keys && t.objects.Keys == lib.objects.Keys
    requires forall v | v in lib.versions :: SameText(lib.versions[v], t.versions[v])
    requires forall o | o in lib.objects :: t.objects[o].latestVersionId == lib.objects[o].latestVersionId
    ensures Follows(lib, t)
  {
  }

  lemma CompactFollows(lib: Library, order: seq<Id>, now: Time, windowSeconds: int)
    requires LibraryValid(lib) && ListsCandidates(lib, order, now, windowSeconds)
    ensures Follows(lib, CompactVersions(lib, order, now, windowSeconds))
  {
    hide LibraryValid, CompactVersions, IsCompactable;
    CompactsExactlyCompactable(lib, order, now, windowSeconds);
    LatestsSurvive(lib, CompactVersions(lib, order, now, windowSeconds), now, windowSeconds);
  }

  lemma LatestsSurvive(lib: Library, t: Library, now: Time, windowSeconds: int)
    requires LibraryValid(lib) && t.objects == lib.objects
    requires forall v :: v in t.versions <==>
               v in lib.versions && !IsCompactable(lib.versions[v],
                   LatestOf(lib.versions, lib.versions[v].objectId) == Some(v), now, windowSeconds)
    requires forall v | v in t.versions :: t.versions[v] == lib.versions[v]
    ensures Follows(lib, t)
  {
    hide Valid, VersionsHeld, HeldForVersions, LatestOf;
    forall o | o in lib.objects
      ensures Top(lib, o) == Top(t, o)
    {
      TopIsHighest(lib, o);
    }
  }

  lemma NextFollows(lib: Library, op: LibraryOp)
    requires LibraryValid(lib) && Proper(lib, op)
    ensures Follows(lib, Next(lib, op))
  {
    hide Write, AppendTo, CompactVersions, LibraryValid, Follows, Put, Release;
    match op
    case OWrite(input, ids, now) => WriteFollows(lib, input, ids, now);
    case OEdit(o, title, content, delta, ids, now) =>
      AppendToFollows(lib, o, if title.Some? then title.value else lib.objects[o].title, content, delta, ids, now);
    case OCompactVersions(order, now, windowSeconds) => CompactFollows(lib, order, now, windowSeconds);
    case _ => SameVersionsFollow(lib, Next(lib, op));
  }

  // ----- whole runs

  ghost predicate IsRun(states: seq<Library>, ops: seq<LibraryOp>) {
    |states| == |ops| + 1 && forall k: nat | k < |ops| ::
        Proper(states[k], ops[k]) && states[k + 1] == Next(states[k], ops[k])
  }

  lemma {:induction false} RunsStayValid(states: seq<Library>, ops: seq<LibraryOp>, k: nat)
    requires IsRun(states, ops) && LibraryValid(states[0]) && k <= |ops|
    ensures LibraryValid(states[k])
  {
    hide LibraryValid;
    if k > 0 {
      RunsStayValid(states, ops, k - 1);
      NextKeepsValid(states[k - 1], ops[k - 1]);
    }
  }

  lemma StepFollows(states: seq<Library>, ops: seq<LibraryOp>, j: nat)
    requires IsRun(states, ops) && LibraryValid(states[0]) && 0 < j <= |ops|
    ensures Follows(states[j - 1], states[j])
  {
    hide LibraryValid, Follows;
    RunsStayValid(states, ops, j - 1);
    NextFollows(states[j - 1], ops[j - 1]);
  }

  /**
   * A version that is still there has the content hash it had, however often its blob was shared, swept around or
   * released.
   */
  lemma {:induction false} SurvivorsKeepTheirHash(states: seq<Library>, ops: seq<LibraryOp>, v: Id, i: nat, j: nat)
    requires IsRun(states, ops) && LibraryValid(states[0]) && i <= j <= |ops|
    requires forall k | i <= k <= j :: v in states[k].versions
    ensures states[j].versions[v].contentHash == states[i].versions[v].contentHash
    ensures states[j].versions[v].deltaHash == states[i].versions[v].deltaHash
    ensures states[j].versions[v].deltaSummary == states[i].versions[v].deltaSummary
  {
    hide LibraryValid, Next, Proper;
    if j > i {
      SurvivorsKeepTheirHash(states, ops, v, i, j - 1);
      StepFollows(states, ops, j);
    }
  }

  /**
   * Content is for ever: after any run, a surviving version reads back exactly the bytes it was written with, its delta
   * exactly when that has a summary, or says that the blob was released.
   */
  lemma SurvivorsReadBack(states: seq<Library>, ops: seq<LibraryOp>, v: Id, i: nat, j: nat)
    requires IsRun(states, ops) && LibraryValid(states[0]) && i <= j <= |ops|
    requires forall k | i <= k <= j :: v in states[k].versions
    ensures ReadsAsWritten(states[i].versions[v], states[j], v)
  {
    SurvivorsKeepTheirHash(states, ops, v, i, j);
    RunsStayValid(states, ops, j);
    hide Next, Proper, Get;
    VersionReadsBack(states[j], v);
  }

  /** Version `v` reads back what was written as `row`. */
  ghost predicate ReadsAsWritten(row: VersionRow, t: Library, v: Id)
    requires v in t.versions
  {
    var now := t.versions[v];
    && now.contentBlob in t.store.blobs && ReadContent(t, v) == Reading(t.store, now.contentBlob, row.contentHash)
    && (ReadDelta(t, v).Some? <==> row.deltaHash.Some? && row.deltaSummary != Some(""))
    && (row.deltaHash.Some? ==>
          && now.deltaBlob.Some? && row.deltaSummary.Some? && now.deltaBlob.value in t.store.blobs
          && Get(t.store, now.deltaBlob.value) == Reading(t.store, now.deltaBlob.value, row.deltaHash.value))
    && (ReadDelta(t, v).Some? ==>
          ReadDelta(t, v).value
          == WithSummary(row.deltaSummary.value, Reading(t.store, now.deltaBlob.value, row.deltaHash.value)))
  }

  lemma {:induction false} TopNeverFalls(states: seq<Library>, ops: seq<LibraryOp>, o: Id, i: nat, j: nat)
    requires IsRun(states, ops) && LibraryValid(states[0]) && i <= j <= |ops|
    ensures Top(states[i], o) <= Top(states[j], o)
    ensures o in states[i].objects ==> o in states[j].objects
  {
    hide LibraryValid, IsRun;
    if j > i {
      TopNeverFalls(states, ops, o, i, j - 1);
      RunLength(states, ops);
      StepFollows(states, ops, j);
      RunsStayValid(states, ops, j);
      TopNotNegative(states[j], o);
    }
  }

  lemma RunLength(states: seq<Library>, ops: seq<LibraryOp>)
    requires IsRun(states, ops)
    ensures |states| == |ops| + 1
  {
  }

  lemma TopNotNegative(lib: Library, o: Id)
    requires LibraryValid(lib)
    ensures Top(lib, o) >= 0
  {
    TopIsHighest(lib, o);
  }

  /**
   * Ordinals are never reused: a version that appears later outnumbers every version its object ever had, compacted
   * ones included.
   */
  lemma OrdinalsNeverReused(states: seq<Library>, ops: seq<LibraryOp>, v: Id, w: Id, i: nat, j: nat)
    requires IsRun(states, ops) && LibraryValid(states[0]) && i <= j < |ops|
    requires v in states[i].versions && w !in states[j].versions && w in states[j + 1].versions
    requires states[i].versions[v].objectId == states[j + 1].versions[w].objectId
    ensures states[i].versions[v].ordinal < states[j + 1].versions[w].ordinal
  {
    var o := states[i].versions[v].objectId;
    TopNeverFalls(states, ops, o, i, j);
    RunsStayValid(states, ops, i);
    TopIsHighest(states[i], o);
    StepFollows(states, ops, j + 1);
    hide LibraryValid, Next, Proper;
  }

  /**
   * Nothing referenced is ever lost: the latest, a pinned or a run-referenced version survives whatever step comes
   * next.
   */
  lemma RetainedSurvives(lib: Library, op: LibraryOp, v: Id)
    requires LibraryValid(lib) && Proper(lib, op) && v in lib.versions
    requires lib.versions[v].pinned || lib.versions[v].runReferenced
        || LatestOf(lib.versions, lib.versions[v].objectId) == Some(v)
    ensures v in Next(lib, op).versions
  {
    hide Write, AppendTo, CompactVersions, Put, Release, LibraryValid, LatestOf;
    match op
    case OWrite(input, ids, now) => WriteKeepsRows(lib, input, ids, now, v);
    case OEdit(o, title, content, delta, ids, now) =>
      var newTitle := if title.Some? then title.value else lib.objects[o].title;
      AppendToKeepsRows(lib, o, newTitle, content, delta, ids, now, v);
    case OCompactVersions(order, now, windowSeconds) => CompactsExactlyCompactable(lib, order, now, windowSeconds);
    case _ =>
  }

  lemma AppendToKeepsRows(lib: Library, o: Id, title: Id, content: Bytes, delta: Option<ContentDelta>, ids: FreshIds,
      now: Time, v: Id)
    requires o in lib.objects && v in lib.versions
    ensures v in AppendTo(lib, o, title, content, delta, ids, now).versions
  {
    hide Hold;
  }

  lemma WriteKeepsRows(lib: Library, input: WriteInput, ids: FreshIds, now: Time, v: Id)
    requires v in lib.versions
    ensures v in Write(lib, input, ids, now).versions
  {
    hide Hold;
  }
}
