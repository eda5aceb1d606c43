/**
 * Objects, their versions and compaction over the blob store (packages/db/src/object-store.ts,
 * packages/core/src/versions.ts, packages/db/src/maintenance.ts).
 */
module Versions {
  import opened Wrappers
  import opened Sorting
  import opened Blobs

  /**
   * `deltaHash` is no column of its own: it is the hash the delta's blob row has carried since the version was written.
   */
  datatype VersionRow = VersionRow(
    objectId: Id,
    ordinal: int,
    contentHash: Hash,
    contentBlob: BlobId,
    deltaBlob: Option<BlobId>,
    deltaHash: Option<Hash>,
    deltaSummary: Option<string>,
    runReferenced: bool,
    pinned: bool,
    createdAt: Time)

  datatype ObjectRecord = ObjectRecord(external: Option<(Id, Id)>, title: Id, latestVersionId: Option<Id>,
      deletedAt: Option<Time>)

  type VersionTable = map<Id, VersionRow>

  datatype Library = Library(store: Store, objects: map<Id, ObjectRecord>, versions: VersionTable)

  // ----- queries

  ghost predicate IsLatest(versions: VersionTable, o: Id, v: Id) {
    && v in versions && versions[v].objectId == o
    && forall w | w in versions && versions[w].objectId == o :: versions[w].ordinal <= versions[v].ordinal
  }

  /** The version row with the highest ordinal, when the object has any. */
  ghost function LatestOf(versions: VersionTable, o: Id): (v: Option<Id>)
    ensures v.Some? ==> IsLatest(versions, o, v.value)
    ensures v.None? ==> forall w :: !IsLatest(versions, o, w)
  {
    if v :| IsLatest(versions, o, v) then Some(v) else None
  }

  ghost function FindByExternal(lib: Library, external: Option<(Id, Id)>): (o: Option<Id>)
    ensures o.Some? ==> o.value in lib.objects && external.Some? && lib.objects[o.value].external == external
    ensures o.None? && external.Some? ==> forall x | x in lib.objects :: lib.objects[x].external != external
  {
    if o :| external.Some? && o in lib.objects && lib.objects[o].external == external then Some(o) else None
  }

  /** What a producer says is new: a line about it, and the text. */
  datatype ContentDelta = ContentDelta(summary: string, body: Bytes)

  /** A delta is kept only when its text is smaller than the content. */
  function ChooseDelta(delta: Option<ContentDelta>, content: Bytes): Option<ContentDelta> {
    if delta.Some? && |delta.value.body| < |content| then delta else None
  }

  /** Ids the store generates: each names nothing yet. */
  datatype FreshIds = FreshIds(obj: Id, version: Id, content: BlobId, delta: BlobId)

  predicate Fresh(lib: Library, ids: FreshIds) {
    ids.obj !in lib.objects && ids.version !in lib.versions
    && ids.content !in lib.store.blobs && ids.delta !in lib.store.blobs && ids.content != ids.delta
  }

  // ----- writing

  /** Put a blob and hold it for a version. */
  ghost function Hold(s: Store, bytes: Bytes, freshId: BlobId, version: Id): Store {
    Reference(Put(s, bytes, freshId), Ref(PutId(s, bytes, freshId), ObjectVersion, version), false)
  }

  ghost function AppendVersion(lib: Library, o: Id, content: Bytes, delta: Option<ContentDelta>, ids: FreshIds,
      now: Time): Library {
    var previous := LatestOf(lib.versions, o);
    var ordinal := (if previous.Some? then lib.versions[previous.value].ordinal else 0) + 1;
    var held := Hold(lib.store, content, ids.content, ids.version);
    var kept := ChooseDelta(delta, content);
    var store := if kept.Some? then Hold(held, kept.value.body, ids.delta, ids.version) else held;
    var deltaBlob := if kept.Some? then Some(PutId(held, kept.value.body, ids.delta)) else None;
    var deltaHash := if kept.Some? then Some(Sha256(kept.value.body)) else None;
    var deltaSummary := if kept.Some? then Some(kept.value.summary) else None;
    var row := VersionRow(o, ordinal, Sha256(content), PutId(lib.store, content, ids.content), deltaBlob, deltaHash,
        deltaSummary, false, false, now);
    lib.(store := store, versions := lib.versions[ids.version := row])
  }

  /** Unchanged content writes no version; the title is set either way. */
  ghost function AppendTo(lib: Library, o: Id, title: Id, content: Bytes, delta: Option<ContentDelta>, ids: FreshIds,
      now: Time): Library
    requires o in lib.objects
  {
    var latest := LatestOf(lib.versions, o);
    if latest.Some? && lib.versions[latest.value].contentHash == Sha256(content) then
      lib.(objects := lib.objects[o := lib.objects[o].(title := title)])
    else
      var appended := AppendVersion(lib, o, content, delta, ids, now);
      appended.(objects := lib.objects[o := lib.objects[o].(title := title, latestVersionId := Some(ids.version))])
  }

  datatype WriteInput = WriteInput(objectId: Option<Id>, external: Option<(Id, Id)>, title: Id, content: Bytes,
      delta: Option<ContentDelta>)

  /** The object a write lands on: the one with this identity outside, the one with this id, or a new one. */
  ghost function Target(lib: Library, input: WriteInput, ids: FreshIds): Id {
    var existing := FindByExternal(lib, input.external);
    if existing.Some? then existing.value
    else if input.objectId.Some? then input.objectId.value
    else ids.obj
  }

  ghost function Write(lib: Library, input: WriteInput, ids: FreshIds, now: Time): Library {
    var o := Target(lib, input, ids);
    if o in lib.objects then AppendTo(lib, o, input.title, input.content, input.delta, ids, now)
    else
      var created := Created(lib, input, ids);
      var appended := AppendVersion(created, o, input.content, input.delta, ids, now);
      appended.(objects := appended.objects[o := appended.objects[o].(latestVersionId := Some(ids.version))])
  }

  ghost function Edit(lib: Library, o: Id, title: Option<Id>, content: Bytes, delta: Option<ContentDelta>,
      ids: FreshIds, now: Time): Library
    requires o in lib.objects
  {
    AppendTo(lib, o, if title.Some? then title.value else lib.objects[o].title, content, delta, ids, now)
  }

  function SetDeleted(lib: Library, o: Id, at: Option<Time>): Library {
    if o in lib.objects && !(at.Some? && lib.objects[o].deletedAt.Some?)
    then lib.(objects := lib.objects[o := lib.objects[o].(deletedAt := at)])
    else lib
  }

  // ----- retention flags

  function MarkRunReferenced(lib: Library, vs: set<Id>, pinned: bool): Library {
    lib.(versions := map v | v in lib.versions ::
           if v in vs then lib.versions[v].(runReferenced := true, pinned := pinned || lib.versions[v].pinned)
               else lib.versions[v])
  }

  function SetPinned(lib: Library, vs: set<Id>, pinned: bool): Library {
    lib.(versions := map v | v in lib.versions ::
        if v in vs then lib.versions[v].(pinned := pinned) else lib.versions[v])
  }

  /** What compacting runs does here: versions lose the flag their runs gave them. */
  function ClearRunReferenced(lib: Library, vs: set<Id>): Library {
    lib.(versions := map v | v in lib.versions ::
        if v in vs then lib.versions[v].(runReferenced := false) else lib.versions[v])
  }

  // ----- compaction

  /** Never the latest, never pinned, never run-referenced, and older than the window. */
  predicate IsCompactable(version: VersionRow, isLatest: bool, now: Time, windowSeconds: int) {
    !isLatest && !version.pinned && !version.runReferenced && version.createdAt < now - windowSeconds
  }

  /** The rows the sweep's query selects. */
  function Candidates(lib: Library, now: Time, windowSeconds: int): set<Id> {
    set v | v in lib.versions && !lib.versions[v].runReferenced && !lib.versions[v].pinned
            && lib.versions[v].createdAt < now - windowSeconds
            && lib.versions[v].objectId in lib.objects
            && lib.objects[lib.versions[v].objectId].latestVersionId != Some(v)
  }

  /** One candidate's transaction: its references and its row go together. */
  function DropVersion(lib: Library, v: Id): Library
    requires v in lib.versions
  {
    var row := lib.versions[v];
    var s1 := Dereference(lib.store, Ref(row.contentBlob, ObjectVersion, v));
    var s2 := if row.deltaBlob.Some? then Dereference(s1, Ref(row.deltaBlob.value, ObjectVersion, v)) else s1;
    lib.(store := s2, versions := lib.versions - {v})
  }

  /** The library after the first `k` candidates of the list were dropped. */
  function DropFirst(lib: Library, order: seq<Id>, k: nat): (r: Library)
    requires k <= |order| && Distinct(order) && forall v | v in order :: v in lib.versions
    ensures r.objects == lib.objects
    ensures forall v :: v in r.versions <==> v in lib.versions && v !in order[..k]
    ensures forall v | v in r.versions :: r.versions[v] == lib.versions[v]
  {
    if k == 0 then lib
    else
      assert order[..k] == order[..k - 1] + [order[k - 1]];
      assert order[k - 1] in order && order[k - 1] !in order[..k - 1];
      DropVersion(DropFirst(lib, order, k - 1), order[k - 1])
  }

  ghost predicate ListsCandidates(lib: Library, order: seq<Id>, now: Time, windowSeconds: int) {
    Distinct(order) && forall v :: v in order <==> v in Candidates(lib, now, windowSeconds)
  }

  ghost function CompactVersions(lib: Library, order: seq<Id>, now: Time, windowSeconds: int): Library
    requires ListsCandidates(lib, order, now, windowSeconds)
  {
    DropFirst(lib, order, |order|)
  }

  ghost function CompactBlobs(lib: Library, order: seq<BlobId>): Library
    requires ListsOrphans(lib.store, order)
  {
    lib.(store := Compact(lib.store, order))
  }

  // ----- the invariant

  /** A version holds a reference of its own on its content, and on its delta. */
  ghost predicate Holds(s: Store, v: Id, row: VersionRow) {
    && row.contentBlob in s.blobs && s.blobs[row.contentBlob].hash == row.contentHash
    && Ref(row.contentBlob, ObjectVersion, v) in s.refs
    && (row.deltaBlob.Some? <==> row.deltaHash.Some?) && (row.deltaBlob.Some? <==> row.deltaSummary.Some?)
    && (row.deltaBlob.Some? ==>
          && row.deltaBlob.value in s.blobs && s.blobs[row.deltaBlob.value].hash == row.deltaHash.value
          && Ref(row.deltaBlob.value, ObjectVersion, v) in s.refs)
  }

  ghost predicate VersionsHeld(s: Store, versions: VersionTable) {
    forall v | v in versions :: Holds(s, v, versions[v])
  }

  /** The references held for versions are those, and no others. */
  ghost predicate HeldForVersions(refs: map<Ref, bool>, versions: VersionTable) {
    forall r | r in refs && r.ownerKind == ObjectVersion ::
      r.ownerId in versions
          && (r.blob == versions[r.ownerId].contentBlob || Some(r.blob) == versions[r.ownerId].deltaBlob)
  }

  ghost predicate OrdinalsUnique(versions: VersionTable) {
    forall v, w | v in versions && w in versions && versions[v].objectId == versions[w].objectId
                  && versions[v].ordinal == versions[w].ordinal :: v == w
  }

  /** `latestVersionId` names the version with the highest ordinal; ordinals start at 1. */
  ghost predicate LatestNamesHighest(objects: map<Id, ObjectRecord>, versions: VersionTable) {
    && (forall o | o in objects ::
        objects[o].latestVersionId.Some? && IsLatest(versions, o, objects[o].latestVersionId.value))
    && (forall v | v in versions :: versions[v].objectId in objects && versions[v].ordinal >= 1)
  }

  ghost predicate Numbered(lib: Library) {
    OrdinalsUnique(lib.versions) && LatestNamesHighest(lib.objects, lib.versions)
  }

  /** The unique index on outside identity. */
  predicate ExternalUnique(objects: map<Id, ObjectRecord>) {
    forall a, b | a in objects && b in objects && objects[a].external.Some?
        && objects[a].external == objects[b].external :: a == b
  }

  ghost predicate LibraryValid(lib: Library) {
    Valid(lib.store) && VersionsHeld(lib.store, lib.versions) && HeldForVersions(lib.store.refs, lib.versions)
        && Numbered(lib)
    && ExternalUnique(lib.objects)
  }

  lemma LatestIsNamed(lib: Library, o: Id)
    requires Numbered(lib) && o in lib.objects
    ensures LatestOf(lib.versions, o) == lib.objects[o].latestVersionId
  {
    var w := lib.objects[o].latestVersionId.value;
    assert IsLatest(lib.versions, o, w);
    var v := LatestOf(lib.versions, o).value;
    assert lib.versions[v].ordinal == lib.versions[w].ordinal;
  }

  /** The content half of `read`: the blob behind the version. */
  function ReadContent(lib: Library, v: Id): Result<Bytes, BlobError> {
    if v in lib.versions then Get(lib.store, lib.versions[v].contentBlob) else Err(NoSuchBlob)
  }

  /** Whether `read` looks at the version's delta at all: one was kept, and its summary is not the empty text. */
  predicate ShowsDelta(row: VersionRow) {
    row.deltaBlob.Some? && row.deltaSummary.Some? && row.deltaSummary.value != ""
  }

  /** The delta half of `read`. */
  function ReadDelta(lib: Library, v: Id): Option<Result<ContentDelta, BlobError>> {
    if v in lib.versions && ShowsDelta(lib.versions[v])
    then Some(WithSummary(lib.versions[v].deltaSummary.value, Get(lib.store, lib.versions[v].deltaBlob.value)))
    else None
  }

  function WithSummary(summary: string, body: Result<Bytes, BlobError>): Result<ContentDelta, BlobError> {
    match body
    case Ok(bytes) => Ok(ContentDelta(summary, bytes))
    case Err(error) => Err(error)
  }

  /** What reading a blob gives: the bytes it was stored for, or that it was released. */
  function Reading(s: Store, b: BlobId, hash: Hash): Result<Bytes, BlobError>
    requires b in s.blobs
  {
    if s.blobs[b].releasedAt.Some? then Err(Released(hash)) else Ok(hash.bytes)
  }

  /**
   * A version always reads back exactly the bytes its hashes were taken of, unless a blob was released: the content,
   * and the delta, if one was kept, exactly when its summary is not empty.
   */
  lemma VersionReadsBack(lib: Library, v: Id)
    requires Valid(lib.store) && VersionsHeld(lib.store, lib.versions) && v in lib.versions
    ensures var row := lib.versions[v];
      && row.contentBlob in lib.store.blobs
      && ReadContent(lib, v) == Reading(lib.store, row.contentBlob, row.contentHash)
      && (ReadDelta(lib, v).Some? <==> row.deltaHash.Some? && row.deltaSummary != Some(""))
      && (row.deltaHash.Some? ==>
            && row.deltaBlob.Some? && row.deltaSummary.Some? && row.deltaBlob.value in lib.store.blobs
            && Get(lib.store, row.deltaBlob.value) == Reading(lib.store, row.deltaBlob.value, row.deltaHash.value))
      && (ReadDelta(lib, v).Some? ==>
            ReadDelta(lib, v).value
            == WithSummary(row.deltaSummary.value, Reading(lib.store, row.deltaBlob.value, row.deltaHash.value)))
  {
    var row := lib.versions[v];
    assert Holds(lib.store, v, row);
    GetReadsBack(lib.store, row.contentBlob);
    if row.deltaBlob.Some? {
      GetReadsBack(lib.store, row.deltaBlob.value);
    }
  }

  // ----- appending

  /** Rows keep their ids and hashes, what reads back goes on reading back, and references are only added. */
  ghost predicate Grows(s: Store, t: Store) {
    && (forall b | b in s.blobs ::
          b in t.blobs && t.blobs[b].hash == s.blobs[b].hash
              && (s.blobs[b].releasedAt.None? ==> t.blobs[b].releasedAt.None?))
    && s.refs.Keys <= t.refs.Keys
  }

  lemma HoldGrows(s: Store, bytes: Bytes, freshId: BlobId, version: Id)
    requires Valid(s) && freshId !in s.blobs
    ensures var t, id := Hold(s, bytes, freshId, version), PutId(s, bytes, freshId);
            && Valid(t) && Grows(s, t) && id in t.blobs && t.blobs[id].hash == Sha256(bytes)
            && t.blobs[id].releasedAt.None?
            && t.blobs.Keys == s.blobs.Keys + {id} && t.refs.Keys == s.refs.Keys + {Ref(id, ObjectVersion, version)}
  {
    PutReadsBack(s, bytes, freshId);
    ReferenceFacts(Put(s, bytes, freshId), Ref(PutId(s, bytes, freshId), ObjectVersion, version));
  }

  lemma ReferenceFacts(s: Store, r: Ref)
    requires Valid(s) && r.blob in s.blobs
    ensures var t := Reference(s, r, false);
            Valid(t) && t.blobs == s.blobs && t.files == s.files && t.refs.Keys == s.refs.Keys + {r}
  {
  }

  /** The references a version's row calls for. */
  function RefsOf(v: Id, row: VersionRow): set<Ref> {
    {Ref(row.contentBlob, ObjectVersion, v)} + if row.deltaBlob.Some? then {Ref(row.deltaBlob.value, ObjectVersion, v)}
        else {}
  }

  /** An append holds the new version's blobs, numbers it right after the latest, and touches nothing else. */
  lemma AppendVersionFacts(lib: Library, o: Id, content: Bytes, delta: Option<ContentDelta>, ids: FreshIds, now: Time)
    requires Valid(lib.store) && ids.content !in lib.store.blobs && ids.delta !in lib.store.blobs
        && ids.content != ids.delta
    ensures var t := AppendVersion(lib, o, content, delta, ids, now);
            var row := t.versions[ids.version];
            && t.objects == lib.objects && t.versions == lib.versions[ids.version := row]
            && row.objectId == o && row.contentHash == Sha256(content)
            && row.deltaHash == (if ChooseDelta(delta, content).Some?
                then Some(Sha256(ChooseDelta(delta, content).value.body)) else None)
            && row.deltaSummary == (if ChooseDelta(delta, content).Some?
                then Some(ChooseDelta(delta, content).value.summary) else None)
            && (row.deltaBlob.Some? ==>
                row.deltaBlob.value in t.store.blobs && t.store.blobs[row.deltaBlob.value].releasedAt.None?)
            && row.ordinal == (if LatestOf(lib.versions, o).Some?
                then lib.versions[LatestOf(lib.versions, o).value].ordinal else 0) + 1
            && Valid(t.store) && Grows(lib.store, t.store) && Holds(t.store, ids.version, row)
            && t.store.refs.Keys == lib.store.refs.Keys + RefsOf(ids.version, row)
            && t.store.blobs[row.contentBlob].releasedAt.None?
  {
    hide Hold, Valid;
    var held := Hold(lib.store, content, ids.content, ids.version);
    HoldGrows(lib.store, content, ids.content, ids.version);
    IdIsFreshOrOld(lib.store, content, ids.content);
    var kept := ChooseDelta(delta, content);
    if kept.Some? {
      HoldGrows(held, kept.value.body, ids.delta, ids.version);
    }
  }

  lemma IdIsFreshOrOld(s: Store, bytes: Bytes, freshId: BlobId)
    ensures PutId(s, bytes, freshId) == freshId || PutId(s, bytes, freshId) in s.blobs
  {
  }

  /** With the new version's references added, every version is held, and by nothing more than it calls for. */
  lemma NewVersionHeld(s: Store, t: Store, versions: VersionTable, v: Id, row: VersionRow)
    requires VersionsHeld(s, versions) && HeldForVersions(s.refs, versions) && v !in versions
    requires Grows(s, t) && Holds(t, v, row) && t.refs.Keys == s.refs.Keys + RefsOf(v, row)
    ensures VersionsHeld(t, versions[v := row]) && HeldForVersions(t.refs, versions[v := row])
  {
    forall w | w in versions
      ensures Holds(t, w, versions[w])
    {
      assert Holds(s, w, versions[w]);
    }
    forall r | r in s.refs && r.ownerKind == ObjectVersion
      ensures r.ownerId in versions && r.ownerId != v
    {
    }
  }

  /** The new version takes over as its object's latest; every other object keeps its own. */
  lemma NumberedAfterAppend(lib: Library, t: Library, o: Id, v: Id)
    requires Numbered(lib) && v !in lib.versions && v in t.versions && t.versions == lib.versions[v := t.versions[v]]
        && t.versions[v].objectId == o
    requires t.versions[v].ordinal == if o in lib.objects
        then lib.versions[lib.objects[o].latestVersionId.value].ordinal + 1 else 1
    requires o in t.objects && t.objects == lib.objects[o := t.objects[o]] && t.objects[o].latestVersionId == Some(v)
    ensures Numbered(t)
  {
    assert o in lib.objects ==> IsLatest(lib.versions, o, lib.objects[o].latestVersionId.value);
    forall w | w in lib.versions && lib.versions[w].objectId == o
      ensures 1 <= lib.versions[w].ordinal < t.versions[v].ordinal
    {
    }
    forall x | x in t.objects && x != o
      ensures t.objects[x].latestVersionId.Some? && IsLatest(t.versions, x, t.objects[x].latestVersionId.value)
    {
      assert IsLatest(lib.versions, x, lib.objects[x].latestVersionId.value);
    }
    AppendedUnique(lib.versions, t.versions, v);
  }

  lemma AppendedUnique(versions: VersionTable, t: VersionTable, v: Id)
    requires OrdinalsUnique(versions) && v in t && t == versions[v := t[v]]
    requires forall w | w in versions && versions[w].objectId == t[v].objectId :: versions[w].ordinal < t[v].ordinal
    ensures OrdinalsUnique(t)
  {
  }

  /** The same versions up to their retention flags, over the same objects up to their titles and deletion. */
  ghost predicate SameVersions(lib: Library, t: Library) {
    && t.store == lib.store && t.versions.Keys == lib.versions.Keys && t.objects.Keys == lib.objects.Keys
    && (forall v | v in lib.versions ::
        t.versions[v] == lib.versions[v].(runReferenced := t.versions[v].runReferenced, pinned := t.versions[v].pinned))
    && (forall o | o in lib.objects ::
          t.objects[o].latestVersionId == lib.objects[o].latestVersionId
              && t.objects[o].external == lib.objects[o].external)
  }

  lemma SameVersionsHeld(lib: Library, t: Library)
    requires SameVersions(lib, t) && VersionsHeld(lib.store, lib.versions)
        && HeldForVersions(lib.store.refs, lib.versions)
    ensures VersionsHeld(t.store, t.versions) && HeldForVersions(t.store.refs, t.versions)
  {
    forall v | v in t.versions
      ensures Holds(t.store, v, t.versions[v])
    {
      assert Holds(lib.store, v, lib.versions[v]);
    }
  }

  lemma SameVersionsNumbered(lib: Library, t: Library)
    requires SameVersions(lib, t) && Numbered(lib)
    ensures Numbered(t)
  {
    forall o | o in t.objects
      ensures IsLatest(t.versions, o, t.objects[o].latestVersionId.value)
    {
      assert IsLatest(lib.versions, o, lib.objects[o].latestVersionId.value);
    }
  }

  lemma SameVersionsKeepValid(lib: Library, t: Library)
    requires LibraryValid(lib) && SameVersions(lib, t)
    ensures LibraryValid(t)
  {
    SameVersionsHeld(lib, t);
    SameVersionsNumbered(lib, t);
  }

  /** A new version takes its place: the library it came into, with the row and the store and object that go with it. */
  lemma AppendedIsValid(lib: Library, t: Library, o: Id, v: Id)
    requires LibraryValid(lib) && v !in lib.versions && v in t.versions
        && t.versions == lib.versions[v := t.versions[v]]
    requires Valid(t.store) && Grows(lib.store, t.store) && Holds(t.store, v, t.versions[v])
    requires t.store.refs.Keys == lib.store.refs.Keys + RefsOf(v, t.versions[v]) && t.versions[v].objectId == o
    requires t.versions[v].ordinal == if o in lib.objects
        then lib.versions[lib.objects[o].latestVersionId.value].ordinal + 1 else 1
    requires o in t.objects && t.objects == lib.objects[o := t.objects[o]] && t.objects[o].latestVersionId == Some(v)
    requires ExternalUnique(t.objects)
    ensures LibraryValid(t)
  {
    hide Valid, Holds, Grows, IsLatest, ExternalUnique;
    NewVersionHeld(lib.store, t.store, lib.versions, v, t.versions[v]);
    NumberedAfterAppend(lib, t, o, v);
  }

  lemma SameExternals(objects: map<Id, ObjectRecord>, others: map<Id, ObjectRecord>)
    requires ExternalUnique(objects) && others.Keys == objects.Keys
    requires forall o | o in objects :: others[o].external == objects[o].external
    ensures ExternalUnique(others)
  {
  }

  lemma AppendToKeepsValid(lib: Library, o: Id, title: Id, content: Bytes, delta: Option<ContentDelta>, ids: FreshIds,
      now: Time)
    requires LibraryValid(lib) && o in lib.objects && Fresh(lib, ids)
    ensures LibraryValid(AppendTo(lib, o, title, content, delta, ids, now))
  {
    hide AppendVersion, Valid, VersionsHeld, HeldForVersions, ExternalUnique, LatestOf, OrdinalsUnique;
    LatestIsNamed(lib, o);
    assert lib.objects[o].latestVersionId.value in lib.versions;
    hide IsLatest;
    var t := AppendTo(lib, o, title, content, delta, ids, now);
    if lib.versions[lib.objects[o].latestVersionId.value].contentHash == Sha256(content) {
      SameVersionsKeepValid(lib, t);
    } else {
      AppendVersionFacts(lib, o, content, delta, ids, now);
      SameExternals(lib.objects, t.objects);
      hide Holds, Grows;
      AppendedIsValid(lib, t, o, ids.version);
    }
  }

  /** An object nobody wrote before has no version. */
  lemma NoVersionYet(lib: Library, o: Id)
    requires Numbered(lib) && o !in lib.objects
    ensures LatestOf(lib.versions, o).None?
  {
  }

  lemma WriteKeepsValid(lib: Library, input: WriteInput, ids: FreshIds, now: Time)
    requires LibraryValid(lib) && Fresh(lib, ids)
    ensures LibraryValid(Write(lib, input, ids, now))
  {
    var o := Target(lib, input, ids);
    hide AppendTo, AppendVersion, Valid, VersionsHeld, HeldForVersions, IsLatest, ExternalUnique, LatestOf,
        OrdinalsUnique;
    if o in lib.objects {
      AppendToKeepsValid(lib, o, input.title, input.content, input.delta, ids, now);
    } else {
      var created, t := Created(lib, input, ids), Write(lib, input, ids, now);
      NoVersionYet(lib, o);
      AppendVersionFacts(created, o, input.content, input.delta, ids, now);
      CreatedExternals(lib, input, ids);
      SameExternals(created.objects, t.objects);
      hide Holds, Grows, Target;
      AppendedIsValid(lib, t, o, ids.version);
    }
  }

  /** A new row's outside identity is nobody else's, or the write would have found that object. */
  lemma CreatedExternals(lib: Library, input: WriteInput, ids: FreshIds)
    requires ExternalUnique(lib.objects) && Target(lib, input, ids) !in lib.objects
    ensures ExternalUnique(Created(lib, input, ids).objects)
  {
  }

  /** The library with the row of the object a write creates, before its first version. */
  ghost function Created(lib: Library, input: WriteInput, ids: FreshIds): Library {
    lib.(objects := lib.objects[Target(lib, input, ids) := ObjectRecord(input.external, input.title, None, None)])
  }

  /** The object's latest version holds this content; if it was made just now, it reads back. */
  ghost predicate LatestHolds(t: Library, o: Id, content: Bytes, delta: Option<ContentDelta>, v: Id, made: bool) {
    && o in t.objects && t.objects[o].latestVersionId.Some? && t.objects[o].latestVersionId.value in t.versions
    && t.versions[t.objects[o].latestVersionId.value].contentHash == Sha256(content)
    && (made ==>
          && t.objects[o].latestVersionId == Some(v) && ReadContent(t, v) == Ok(content)
          && HoldsDelta(t, v, ChooseDelta(delta, content))
          && ReadDelta(t, v) == Shown(ChooseDelta(delta, content)))
  }

  /** The delta that was kept, if any, is stored with its bytes and held for the version. */
  ghost predicate HoldsDelta(t: Library, v: Id, kept: Option<ContentDelta>)
    requires v in t.versions
  {
    var blob := t.versions[v].deltaBlob;
    && (kept.Some? <==> blob.Some?)
    && (kept.Some? ==>
          && Get(t.store, blob.value) == Ok(kept.value.body)
          && Ref(blob.value, ObjectVersion, v) in t.store.refs)
  }

  function Shown(kept: Option<ContentDelta>): Option<Result<ContentDelta, BlobError>> {
    if kept.Some? && kept.value.summary != "" then Some(Ok(kept.value)) else None
  }

  lemma UnchangedReadsBack(lib: Library, o: Id, title: Id, content: Bytes, delta: Option<ContentDelta>, ids: FreshIds,
      now: Time)
    requires LibraryValid(lib) && o in lib.objects && Fresh(lib, ids)
    requires lib.versions[lib.objects[o].latestVersionId.value].contentHash == Sha256(content)
    ensures var t := AppendTo(lib, o, title, content, delta, ids, now);
            ids.version !in t.versions && LatestHolds(t, o, content, delta, ids.version, false)
  {
    LatestIsNamed(lib, o);
    hide Valid, VersionsHeld, HeldForVersions, AppendVersion, ExternalUnique;
  }

  /** A version just appended and named reads back. */
  lemma AppendedReadsBack(before: Library, o: Id, content: Bytes, delta: Option<ContentDelta>, ids: FreshIds, now: Time,
      t: Library)
    requires Valid(before.store) && VersionsHeld(before.store, before.versions) && ids.version !in before.versions
    requires ids.content !in before.store.blobs && ids.delta !in before.store.blobs && ids.content != ids.delta
    requires o in t.objects && t.objects[o].latestVersionId == Some(ids.version)
    requires t.store == AppendVersion(before, o, content, delta, ids, now).store
    requires t.versions == AppendVersion(before, o, content, delta, ids, now).versions
    ensures LatestHolds(t, o, content, delta, ids.version, true)
  {
    AppendVersionFacts(before, o, content, delta, ids, now);
    hide AppendVersion, Valid, Holds, Get;
    forall w | w in t.versions
      ensures Holds(t.store, w, t.versions[w])
    {
      if w != ids.version {
        HeldThroughGrowth(before.store, t.store, w, before.versions[w]);
      }
    }
    VersionReadsBack(t, ids.version);
  }

  lemma HeldThroughGrowth(s: Store, t: Store, v: Id, row: VersionRow)
    requires Holds(s, v, row) && Grows(s, t)
    ensures Holds(t, v, row)
  {
  }

  /** After a write its object's latest version has exactly the content written, and a version it made reads it back. */
  lemma WriteReadsBack(lib: Library, input: WriteInput, ids: FreshIds, now: Time)
    requires LibraryValid(lib) && Fresh(lib, ids)
    ensures var t, o := Write(lib, input, ids, now), Target(lib, input, ids);
            LatestHolds(t, o, input.content, input.delta, ids.version, ids.version in t.versions)
  {
    var o, t := Target(lib, input, ids), Write(lib, input, ids, now);
    if o in lib.objects && lib.versions[lib.objects[o].latestVersionId.value].contentHash == Sha256(input.content) {
      hide AppendTo, Valid, VersionsHeld, HeldForVersions, ExternalUnique, LatestHolds;
      UnchangedReadsBack(lib, o, input.title, input.content, input.delta, ids, now);
    } else {
      if o in lib.objects {
        LatestIsNamed(lib, o);
      }
      var before := if o in lib.objects then lib else Created(lib, input, ids);
      hide AppendVersion, Valid, VersionsHeld, HeldForVersions, ExternalUnique, LatestHolds;
      assert o in t.objects && t.objects[o].latestVersionId == Some(ids.version);
      assert t.store == AppendVersion(before, o, input.content, input.delta, ids, now).store;
      AppendedReadsBack(before, o, input.content, input.delta, ids, now, t);
    }
  }

  /** Of every write that makes a version: a delta it keeps reads back exactly when its summary is not empty. */
  lemma KeptDeltaReadsIff(lib: Library, input: WriteInput, ids: FreshIds, now: Time)
    requires LibraryValid(lib) && Fresh(lib, ids) && ids.version in Write(lib, input, ids, now).versions
    requires ChooseDelta(input.delta, input.content).Some?
    ensures var t, kept := Write(lib, input, ids, now), ChooseDelta(input.delta, input.content).value;
            && HoldsDelta(t, ids.version, Some(kept))
            && (ReadDelta(t, ids.version) == Some(Ok(kept)) <==> kept.summary != "")
            && (ReadDelta(t, ids.version).None? <==> kept.summary == "")
  {
    WriteReadsBack(lib, input, ids, now);
    hide LibraryValid, Write, HoldsDelta, ReadDelta, ReadContent;
  }

  /** A first write with a delta nobody summed up: the delta is stored and held, and `read` leaves it out. */
  lemma EmptySummaryHidesDelta(ids: FreshIds, now: Time)
    requires ids.content != ids.delta
    ensures var lib := Library(Store(map[], map[], map[]), map[], map[]);
            var input := WriteInput(None, None, 0, [1, 2], Some(ContentDelta("", [3])));
            var t, v := Write(lib, input, ids, now), ids.version;
            && LibraryValid(lib) && v in t.versions && t.versions[v].deltaBlob.Some?
            && Ref(t.versions[v].deltaBlob.value, ObjectVersion, v) in t.store.refs
            && Get(t.store, t.versions[v].deltaBlob.value) == Ok([3]) && ReadDelta(t, v) == None
  {
    var lib := Library(Store(map[], map[], map[]), map[], map[]);
    var input := WriteInput(None, None, 0, [1, 2], Some(ContentDelta("", [3])));
    assert LibraryValid(lib) && Fresh(lib, ids);
    assert ids.version in Write(lib, input, ids, now).versions by {
      hide Hold, LibraryValid;
    }
    hide LibraryValid, Write, ReadDelta, Get, Fresh;
    KeptDeltaReadsIff(lib, input, ids, now);
  }

  lemma AppendFromValid(lib: Library, before: Library, o: Id, content: Bytes, delta: Option<ContentDelta>,
      ids: FreshIds, now: Time)
    requires LibraryValid(lib) && Fresh(lib, ids) && before == lib.(objects := before.objects)
    ensures o in lib.objects ==>
        LatestOf(lib.versions, o).Some? && LatestOf(lib.versions, o) == lib.objects[o].latestVersionId
    ensures var t := AppendVersion(before, o, content, delta, ids, now);
            var row := t.versions[ids.version];
            && t.objects == before.objects && t.versions == lib.versions[ids.version := row]
            && row.objectId == o && row.contentHash == Sha256(content)
            && row.ordinal == (if o in lib.objects then lib.versions[lib.objects[o].latestVersionId.value].ordinal
                else 0) + 1
            && row.contentBlob in t.store.blobs && t.store.blobs[row.contentBlob].releasedAt.None?
  {
    hide AppendVersion, Valid;
    AppendVersionFacts(before, o, content, delta, ids, now);
    if o in lib.objects {
      LatestIsNamed(lib, o);
    } else {
      NoVersionYet(lib, o);
    }
  }

  // ----- compaction

  lemma DereferenceFacts(s: Store, r: Ref)
    requires Valid(s)
    ensures var t := Dereference(s, r);
        Valid(t) && t.blobs == s.blobs && t.files == s.files && t.refs.Keys == s.refs.Keys - {r}
  {
  }

  lemma DropFacts(lib: Library, v: Id)
    requires Valid(lib.store) && v in lib.versions
    ensures var t := DropVersion(lib, v);
            && Valid(t.store) && t.store.blobs == lib.store.blobs && t.store.files == lib.store.files
            && t.store.refs.Keys == lib.store.refs.Keys - RefsOf(v, lib.versions[v])
            && t.objects == lib.objects && t.versions == lib.versions - {v}
  {
    var row := lib.versions[v];
    DereferenceFacts(lib.store, Ref(row.contentBlob, ObjectVersion, v));
    if row.deltaBlob.Some? {
      DereferenceFacts(Dereference(lib.store, Ref(row.contentBlob, ObjectVersion, v)),
          Ref(row.deltaBlob.value, ObjectVersion, v));
    }
  }

  /** The other versions stay held, whatever blobs they share with the dropped one. */
  lemma DropHeld(lib: Library, t: Library, v: Id)
    requires VersionsHeld(lib.store, lib.versions) && HeldForVersions(lib.store.refs, lib.versions) && v in lib.versions
    requires t.versions == lib.versions - {v} && t.store.blobs == lib.store.blobs
    requires t.store.refs.Keys == lib.store.refs.Keys - RefsOf(v, lib.versions[v])
    ensures VersionsHeld(t.store, t.versions) && HeldForVersions(t.store.refs, t.versions)
  {
    forall w | w in t.versions
      ensures Holds(t.store, w, t.versions[w])
    {
      assert Holds(lib.store, w, lib.versions[w]);
    }
  }

  lemma DropNumbered(lib: Library, t: Library, v: Id)
    requires Numbered(lib) && v in lib.versions && t.versions == lib.versions - {v} && t.objects == lib.objects
    requires lib.versions[v].objectId in lib.objects && lib.objects[lib.versions[v].objectId].latestVersionId != Some(v)
    ensures Numbered(t)
  {
    forall o | o in t.objects
      ensures IsLatest(t.versions, o, t.objects[o].latestVersionId.value)
    {
      assert IsLatest(lib.versions, o, lib.objects[o].latestVersionId.value);
    }
  }

  /** Dropping a version that is not its object's latest leaves a valid library. */
  lemma DropKeepsValid(lib: Library, v: Id)
    requires LibraryValid(lib) && v in lib.versions && lib.versions[v].objectId in lib.objects
    requires lib.objects[lib.versions[v].objectId].latestVersionId != Some(v)
    ensures LibraryValid(DropVersion(lib, v))
  {
    DropFacts(lib, v);
    hide Valid, DropVersion, VersionsHeld, HeldForVersions, Numbered;
    DropHeld(lib, DropVersion(lib, v), v);
    DropNumbered(lib, DropVersion(lib, v), v);
  }

  /** Versions that may go: each is some object's, and not its latest. */
  ghost predicate Droppable(lib: Library, order: seq<Id>) {
    && Distinct(order)
    && forall v | v in order ::
         v in lib.versions && lib.versions[v].objectId in lib.objects
             && lib.objects[lib.versions[v].objectId].latestVersionId != Some(v)
  }

  /** Cut anywhere between two candidates, the sweep leaves a valid library with every blob still there. */
  lemma {:induction false} PartialSweepValid(lib: Library, order: seq<Id>, k: nat)
    requires LibraryValid(lib) && Droppable(lib, order) && k <= |order|
    ensures LibraryValid(DropFirst(lib, order, k))
    ensures DropFirst(lib, order, k).store.blobs == lib.store.blobs
  {
    hide LibraryValid, DropVersion, DropFirst;
    if k == 0 {
      DropNone(lib, order);
    } else {
      PartialSweepValid(lib, order, k - 1);
      DropNext(lib, order, k);
      DropKeepsValid(DropFirst(lib, order, k - 1), order[k - 1]);
      DropKeepsBlobs(DropFirst(lib, order, k - 1), order[k - 1]);
    }
  }

  lemma CandidatesDrop(lib: Library, order: seq<Id>, now: Time, windowSeconds: int)
    requires ListsCandidates(lib, order, now, windowSeconds)
    ensures Droppable(lib, order)
  {
    assert forall v | v in order :: v in Candidates(lib, now, windowSeconds);
  }

  lemma DropNone(lib: Library, order: seq<Id>)
    requires Droppable(lib, order)
    ensures DropFirst(lib, order, 0) == lib
  {
  }

  lemma DropNext(lib: Library, order: seq<Id>, k: nat)
    requires Droppable(lib, order) && 0 < k <= |order|
    ensures var before, v := DropFirst(lib, order, k - 1), order[k - 1];
            && v in before.versions && before.versions[v].objectId in before.objects
            && before.objects[before.versions[v].objectId].latestVersionId != Some(v)
            && DropFirst(lib, order, k) == DropVersion(before, v)
  {
    hide DropVersion;
    assert order[k - 1] in order && order[k - 1] !in order[..k - 1];
  }

  lemma DropKeepsBlobs(lib: Library, v: Id)
    requires v in lib.versions
    ensures DropVersion(lib, v).store.blobs == lib.store.blobs
  {
  }

  /** The sweep deletes exactly the rows the compaction predicate accepts. */
  lemma CompactsExactlyCompactable(lib: Library, order: seq<Id>, now: Time, windowSeconds: int)
    requires LibraryValid(lib) && ListsCandidates(lib, order, now, windowSeconds)
    ensures var t := CompactVersions(lib, order, now, windowSeconds);
            && LibraryValid(t) && t.objects == lib.objects
            && (forall v :: v in t.versions <==>
                  v in lib.versions &&
                  !IsCompactable(lib.versions[v], LatestOf(lib.versions, lib.versions[v].objectId) == Some(v), now,
                      windowSeconds))
            && (forall v | v in t.versions :: t.versions[v] == lib.versions[v])
  {
    PartialSweepValid(lib, order, |order|);
    hide Valid, VersionsHeld, HeldForVersions, IsLatest, DropFirst;
    assert order[..|order|] == order;
    forall v | v in lib.versions
      ensures v in order <==> IsCompactable(lib.versions[v],
          LatestOf(lib.versions, lib.versions[v].objectId) == Some(v), now, windowSeconds)
    {
      LatestIsNamed(lib, lib.versions[v].objectId);
    }
  }

  /** A blob sweep removes nothing a version holds. */
  lemma CompactBlobsKeepsValid(lib: Library, order: seq<BlobId>)
    requires LibraryValid(lib) && ListsOrphans(lib.store, order)
    ensures LibraryValid(CompactBlobs(lib, order))
  {
    CompactKeepsReferenced(lib.store, order);
    hide Valid, Compact;
    var t := CompactBlobs(lib, order);
    forall v | v in lib.versions
      ensures Holds(t.store, v, lib.versions[v])
    {
      var row := lib.versions[v];
      assert Holds(lib.store, v, row);
      assert Ref(row.contentBlob, ObjectVersion, v) in lib.store.refs && Referenced(lib.store, row.contentBlob);
      assert row.deltaBlob.Some? ==>
          Ref(row.deltaBlob.value, ObjectVersion, v) in lib.store.refs && Referenced(lib.store, row.deltaBlob.value);
    }
  }

  /**
   * The maintenance sweep, versions and then blobs: a second one at the same time finds nothing left to remove.
   */
  lemma SweepTwiceRemovesNothingMore(lib: Library, order: seq<Id>, orphans: seq<BlobId>, now: Time, windowSeconds: int)
    requires LibraryValid(lib) && ListsCandidates(lib, order, now, windowSeconds)
    requires ListsOrphans(CompactVersions(lib, order, now, windowSeconds).store, orphans)
    ensures var t := CompactBlobs(CompactVersions(lib, order, now, windowSeconds), orphans);
            Candidates(t, now, windowSeconds) == {} && Orphans(t.store) == {}
  {
    var swept := CompactVersions(lib, order, now, windowSeconds);
    CompactsExactlyCompactable(lib, order, now, windowSeconds);
    CompactKeepsReferenced(swept.store, orphans);
    hide CompactVersions, Compact, Valid;
    var t := CompactBlobs(swept, orphans);
    forall v
      ensures v !in Candidates(t, now, windowSeconds)
    {
      if v in swept.versions {
        LatestIsNamed(lib, lib.versions[v].objectId);
      }
    }
  }

  /** A store that keeps the hashes and the references of the old one still holds every version. */
  lemma SameHoldings(lib: Library, store: Store)
    requires LibraryValid(lib) && Valid(store) && lib.store.refs.Keys <= store.refs.Keys
    requires forall b | b in lib.store.blobs :: b in store.blobs && store.blobs[b].hash == lib.store.blobs[b].hash
    requires forall r | r in store.refs && r.ownerKind == ObjectVersion :: r in lib.store.refs
    ensures LibraryValid(lib.(store := store))
  {
    hide Valid;
    forall v | v in lib.versions
      ensures Holds(store, v, lib.versions[v])
    {
      assert Holds(lib.store, v, lib.versions[v]);
    }
  }
}
