/**
 * Runs of the content store with crashes in them: puts, sweeps and writes cut between any two of their steps. Versions
 * keep their content; what a cut can cost is the newest version's place as the latest, and its number.
 */
module Crashes {
  import opened Wrappers
  import opened Sorting
  import opened Blobs
  import opened Versions
  import opened VersionRuns

  /** Where an append stops: inside a put, after holding a blob, or with its row in and not yet named the latest. */
  datatype Cut = InContent(k: nat) | ContentHeld | InDelta(k: nat) | DeltaHeld | RowIn

  datatype CrashOp =
    | Whole(op: LibraryOp)
    | PutCut(bytes: Bytes, freshId: BlobId, k: nat)
    | BlobSweepCut(orphans: seq<BlobId>, k: nat)
    | VersionSweepCut(order: seq<Id>, k: nat, now: Time, windowSeconds: int)
    | WriteCut(input: WriteInput, ids: FreshIds, now: Time, cut: Cut)
    | EditCut(obj: Id, content: Bytes, delta: Option<ContentDelta>, ids: FreshIds, now: Time, cut: Cut)

  function UpTo<T>(xs: seq<T>, k: nat): seq<T> {
    if k <= |xs| then xs[..k] else xs
  }

  /** The store an interrupted append leaves, its row not written. */
  ghost function StoreAtCut(s: Store, content: Bytes, delta: Option<ContentDelta>, ids: FreshIds, cut: Cut): Store {
    var held, kept := Hold(s, content, ids.content, ids.version), ChooseDelta(delta, content);
    match cut
    case InContent(k) => DoAll(s, UpTo(PutEffects(s, content, ids.content), k))
    case ContentHeld => held
    case InDelta(k) => if kept.None? then held else DoAll(held, UpTo(PutEffects(held, kept.value.body, ids.delta), k))
    case _ => if kept.None? then held else Hold(held, kept.value.body, ids.delta, ids.version)
  }

  ghost function AppendCut(lib: Library, o: Id, content: Bytes, delta: Option<ContentDelta>, ids: FreshIds, now: Time,
      cut: Cut): Library {
    if cut.RowIn? then AppendVersion(lib, o, content, delta, ids, now)
    else lib.(store := StoreAtCut(lib.store, content, delta, ids, cut))
  }

  /** Unchanged content writes no version, so there is nothing to cut. */
  ghost function AppendToCut(lib: Library, o: Id, content: Bytes, delta: Option<ContentDelta>, ids: FreshIds, now: Time,
      cut: Cut): Library {
    var latest := LatestOf(lib.versions, o);
    if latest.Some? && lib.versions[latest.value].contentHash == Sha256(content) then lib
    else AppendCut(lib, o, content, delta, ids, now, cut)
  }

  ghost predicate ProperCut(lib: Library, op: CrashOp) {
    match op
    case Whole(whole) => Proper(lib, whole)
    case PutCut(_, freshId, _) => freshId !in lib.store.blobs
    case BlobSweepCut(orphans, _) => ListsOrphans(lib.store, orphans)
    case VersionSweepCut(order, k, now, windowSeconds) =>
        ListsCandidates(lib, order, now, windowSeconds) && k <= |order|
    case WriteCut(_, ids, _, _) => Fresh(lib, ids)
    case EditCut(o, _, _, ids, _, _) => o in lib.objects && Fresh(lib, ids)
  }

  ghost function After(lib: Library, op: CrashOp): Library
    requires ProperCut(lib, op)
  {
    match op
    case Whole(whole) => Next(lib, whole)
    case PutCut(bytes, freshId, k) => lib.(store := DoAll(lib.store, UpTo(PutEffects(lib.store, bytes, freshId), k)))
    case BlobSweepCut(orphans, k) => lib.(store := DoAll(lib.store, UpTo(CompactEffects(lib.store, orphans), k)))
    case VersionSweepCut(order, k, _, _) => DropFirst(lib, order, k)
    case WriteCut(input, ids, now, cut) =>
      var o := Target(lib, input, ids);
      if o in lib.objects then AppendToCut(lib, o, input.content, input.delta, ids, now, cut)
      else AppendCut(Created(lib, input, ids), o, input.content, input.delta, ids, now, cut)
    case EditCut(o, content, delta, ids, now, cut) => AppendToCut(lib, o, content, delta, ids, now, cut)
  }

  // ----- what every cut leaves

  /** A latest version, where one is named, is there and is the object's own; it need not be the highest. */
  ghost predicate NamesExist(objects: map<Id, ObjectRecord>, versions: VersionTable) {
    && (forall o | o in objects && objects[o].latestVersionId.Some? ::
          objects[o].latestVersionId.value in versions && versions[objects[o].latestVersionId.value].objectId == o)
    && (forall v | v in versions :: versions[v].objectId in objects && versions[v].ordinal >= 1)
  }

  ghost predicate Intact(lib: Library) {
    && Valid(lib.store) && VersionsHeld(lib.store, lib.versions) && OrdinalsUnique(lib.versions)
    && NamesExist(lib.objects, lib.versions)
  }

  lemma ValidIsIntact(lib: Library)
    requires LibraryValid(lib)
    ensures Intact(lib)
  {
    hide Valid, VersionsHeld, HeldForVersions, OrdinalsUnique, ExternalUnique;
    forall o | o in lib.objects
      ensures lib.objects[o].latestVersionId.value in lib.versions
      ensures lib.versions[lib.objects[o].latestVersionId.value].objectId == o
    {
      assert IsLatest(lib.versions, o, lib.objects[o].latestVersionId.value);
    }
  }

  /** Rows that survive are as they were written; a version that is named, pinned or run-referenced does survive. */
  ghost predicate Keeps(lib: Library, t: Library) {
    && (forall v | v in lib.versions && v in t.versions :: SameText(lib.versions[v], t.versions[v]))
    && (forall v | v in lib.versions && Retained(lib, v) :: v in t.versions)
    && lib.objects.Keys <= t.objects.Keys
  }

  ghost predicate Retained(lib: Library, v: Id)
    requires v in lib.versions
  {
    var row := lib.versions[v];
    row.pinned || row.runReferenced
        || (row.objectId in lib.objects && lib.objects[row.objectId].latestVersionId == Some(v))
  }

  /** The same versions over a store that lost nothing they hold. */
  lemma StoreMoves(lib: Library, store: Store)
    requires Intact(lib) && Valid(store) && VersionsHeld(store, lib.versions)
    ensures Intact(lib.(store := store)) && Keeps(lib, lib.(store := store))
  {
    hide Valid, VersionsHeld, OrdinalsUnique;
  }

  lemma StoreGrows(s: Store, t: Store, versions: VersionTable)
    requires VersionsHeld(s, versions) && Grows(s, t)
    ensures VersionsHeld(t, versions)
  {
    forall v | v in versions
      ensures Holds(t, v, versions[v])
    {
      HeldThroughGrowth(s, t, v, versions[v]);
    }
  }

  lemma SameRefsHold(s: Store, t: Store, versions: VersionTable)
    requires VersionsHeld(s, versions) && s.refs.Keys <= t.refs.Keys
    requires forall b | b in s.blobs :: b in t.blobs && t.blobs[b].hash == s.blobs[b].hash
    ensures VersionsHeld(t, versions)
  {
    forall v | v in versions
      ensures Holds(t, v, versions[v])
    {
      assert Holds(s, v, versions[v]);
    }
  }

  // ----- cuts inside the blob store

  /** A put cut anywhere loses no row, no reference and nothing that read back. */
  lemma PutCutGrows(s: Store, bytes: Bytes, freshId: BlobId, k: nat)
    requires Valid(s) && freshId !in s.blobs
    ensures var t := DoAll(s, UpTo(PutEffects(s, bytes, freshId), k));
      Valid(t) && t.refs == s.refs && Grows(s, t) && t.blobs.Keys <= s.blobs.Keys + {PutId(s, bytes, freshId)}
  {
    var es := PutEffects(s, bytes, freshId);
    var n := if k <= |es| then k else |es|;
    assert UpTo(es, k) == es[..n];
    PutCrashSafe(s, bytes, freshId, n);
    if n == |es| {
      assert es[..n] == es;
      PutReadsBack(s, bytes, freshId);
      hide Valid;
    } else {
      CutBeforeTheRow(s, bytes, freshId, n);
    }
  }

  lemma CutBeforeTheRow(s: Store, bytes: Bytes, freshId: BlobId, n: nat)
    requires n < |PutEffects(s, bytes, freshId)|
    ensures var t := DoAll(s, PutEffects(s, bytes, freshId)[..n]); t.blobs == s.blobs && t.refs == s.refs
  {
    var es := PutEffects(s, bytes, freshId);
    if n > 0 {
      assert es[..n] == [es[0]];
      DoAllOne(s, es[0]);
    } else {
      assert es[..n] == [];
    }
  }

  lemma GrowsOn(s: Store, t: Store, u: Store)
    requires Grows(s, t) && Grows(t, u)
    ensures Grows(s, u)
  {
  }

  lemma StoreAtCutGrows(s: Store, content: Bytes, delta: Option<ContentDelta>, ids: FreshIds, cut: Cut)
    requires Valid(s) && ids.content !in s.blobs && ids.delta !in s.blobs && ids.content != ids.delta
    ensures var t := StoreAtCut(s, content, delta, ids, cut); Valid(t) && Grows(s, t)
  {
    hide Valid, Grows, Hold, PutEffects, DoAll, UpTo;
    var held, kept := Hold(s, content, ids.content, ids.version), ChooseDelta(delta, content);
    HoldGrows(s, content, ids.content, ids.version);
    IdIsFreshOrOld(s, content, ids.content);
    match cut
    case InContent(k) => PutCutGrows(s, content, ids.content, k);
    case ContentHeld =>
    case InDelta(k) =>
      if kept.Some? {
        PutCutGrows(held, kept.value.body, ids.delta, k);
        GrowsOn(s, held, StoreAtCut(s, content, delta, ids, cut));
      }
    case _ =>
      if kept.Some? {
        HoldGrows(held, kept.value.body, ids.delta, ids.version);
        GrowsOn(s, held, StoreAtCut(s, content, delta, ids, cut));
      }
  }

  /** A blob sweep cut anywhere keeps every row a version holds. */
  lemma SweepCutHolds(s: Store, orphans: seq<BlobId>, k: nat, versions: VersionTable)
    requires Valid(s) && VersionsHeld(s, versions) && ListsOrphans(s, orphans)
    ensures var t := DoAll(s, UpTo(CompactEffects(s, orphans), k)); Valid(t) && VersionsHeld(t, versions)
  {
    var es := CompactEffects(s, orphans);
    var n := if k <= |es| then k else |es|;
    assert UpTo(es, k) == es[..n];
    CompactCrashSafe(s, orphans, n);
    assert n == 0 ==> es[..n] == [];
    if n > 0 {
      KeptRowsValid(s);
      hide Valid, KeptRows, CompactEffects, DoAll;
      KeptRowsHold(s, DoAll(s, es[..n]), versions);
    }
  }

  lemma KeptRowsHold(s: Store, t: Store, versions: VersionTable)
    requires VersionsHeld(s, versions) && t.refs == s.refs
    requires forall b | b in s.blobs && Referenced(s, b) :: b in t.blobs && t.blobs[b] == s.blobs[b]
    ensures VersionsHeld(t, versions)
  {
    forall v | v in versions
      ensures Holds(t, v, versions[v])
    {
      var row := versions[v];
      assert Holds(s, v, row);
      assert Referenced(s, row.contentBlob);
      assert row.deltaBlob.Some? ==> Referenced(s, row.deltaBlob.value);
    }
  }

  // ----- cuts inside a write

  /** An object with any version has a highest one. */
  lemma {:induction false} HighestExists(versions: VersionTable, o: Id, among: set<Id>) returns (h: Id)
    requires among <= versions.Keys && exists v :: v in among && versions[v].objectId == o
    ensures h in among && versions[h].objectId == o
    ensures forall v | v in among && versions[v].objectId == o :: versions[v].ordinal <= versions[h].ordinal
  {
    h :| h in among && versions[h].objectId == o;
    var rest := among - {h};
    if exists v :: v in rest && versions[v].objectId == o {
      var other := HighestExists(versions, o, rest);
      if versions[h].ordinal < versions[other].ordinal {
        h := other;
      }
    }
  }

  lemma LatestIsHighest(versions: VersionTable, o: Id)
    ensures LatestOf(versions, o).None? ==> forall v | v in versions :: versions[v].objectId != o
  {
    if exists v :: v in versions.Keys && versions[v].objectId == o {
      var h := HighestExists(versions, o, versions.Keys);
      assert IsLatest(versions, o, h);
    }
  }

  lemma RowAddedHeld(s: Store, t: Store, versions: VersionTable, v: Id, row: VersionRow)
    requires VersionsHeld(s, versions) && Grows(s, t) && Holds(t, v, row)
    ensures VersionsHeld(t, versions[v := row])
  {
    StoreGrows(s, t, versions);
    hide Grows, Holds;
  }

  lemma RowAddedNamed(lib: Library, t: Library, v: Id)
    requires NamesExist(lib.objects, lib.versions) && v !in lib.versions && v in t.versions
        && t.versions == lib.versions[v := t.versions[v]]
    requires t.objects == lib.objects && t.versions[v].objectId in lib.objects && t.versions[v].ordinal >= 1
    ensures NamesExist(t.objects, t.versions) && Keeps(lib, t)
  {
  }

  lemma RowAddedIntact(lib: Library, t: Library, v: Id)
    requires Intact(lib) && v !in lib.versions && v in t.versions && t.versions == lib.versions[v := t.versions[v]]
    requires Valid(t.store) && Grows(lib.store, t.store) && Holds(t.store, v, t.versions[v])
    requires t.versions[v].objectId in lib.objects && t.objects == lib.objects && t.versions[v].ordinal >= 1
    requires forall w | w in lib.versions && lib.versions[w].objectId == t.versions[v].objectId ::
      lib.versions[w].ordinal < t.versions[v].ordinal
    ensures Intact(t) && Keeps(lib, t)
  {
    hide Valid, Grows, Holds, Keeps;
    RowAddedHeld(lib.store, t.store, lib.versions, v, t.versions[v]);
    AppendedUnique(lib.versions, t.versions, v);
    RowAddedNamed(lib, t, v);
    hide OrdinalsUnique, VersionsHeld, NamesExist;
  }

  lemma NextNumber(lib: Library, o: Id)
    requires NamesExist(lib.objects, lib.versions)
    ensures var next := (if LatestOf(lib.versions, o).Some? then lib.versions[LatestOf(lib.versions, o).value].ordinal
        else 0) + 1;
      next >= 1 && forall w | w in lib.versions && lib.versions[w].objectId == o :: lib.versions[w].ordinal < next
  {
    LatestIsHighest(lib.versions, o);
  }

  /** A new row with the next number, its blobs held, for an object that is there. */
  lemma AppendIntact(lib: Library, o: Id, content: Bytes, delta: Option<ContentDelta>, ids: FreshIds, now: Time)
    requires Intact(lib) && o in lib.objects && ids.version !in lib.versions
    requires ids.content !in lib.store.blobs && ids.delta !in lib.store.blobs && ids.content != ids.delta
    ensures var t := AppendVersion(lib, o, content, delta, ids, now);
      && Intact(t) && Keeps(lib, t) && t.objects == lib.objects && ids.version in t.versions
      && t.versions == lib.versions[ids.version := t.versions[ids.version]] && t.versions[ids.version].objectId == o
  {
    AppendVersionFacts(lib, o, content, delta, ids, now);
    NextNumber(lib, o);
    hide AppendVersion, Valid, Holds, Grows, VersionsHeld, OrdinalsUnique, LatestOf, Keeps;
    RowAddedIntact(lib, AppendVersion(lib, o, content, delta, ids, now), ids.version);
  }

  lemma AppendCutIntact(lib: Library, o: Id, content: Bytes, delta: Option<ContentDelta>, ids: FreshIds, now: Time,
      cut: Cut)
    requires Intact(lib) && o in lib.objects && ids.version !in lib.versions
    requires ids.content !in lib.store.blobs && ids.delta !in lib.store.blobs && ids.content != ids.delta
    ensures var t := AppendCut(lib, o, content, delta, ids, now, cut); Intact(t) && Keeps(lib, t)
  {
    if cut.RowIn? {
      AppendIntact(lib, o, content, delta, ids, now);
    } else {
      StoreAtCutGrows(lib.store, content, delta, ids, cut);
      hide StoreAtCut, Valid, Grows;
      StoreGrows(lib.store, StoreAtCut(lib.store, content, delta, ids, cut), lib.versions);
      StoreMoves(lib, StoreAtCut(lib.store, content, delta, ids, cut));
    }
  }

  /** Objects may be added, renamed and pointed at another of their own versions. */
  lemma ObjectsMove(lib: Library, t: Library)
    requires Intact(lib) && t == lib.(objects := t.objects) && lib.objects.Keys <= t.objects.Keys
    requires forall o | o in t.objects && t.objects[o].latestVersionId.Some? ::
      t.objects[o].latestVersionId.value in lib.versions
          && lib.versions[t.objects[o].latestVersionId.value].objectId == o
    ensures Intact(t) && Keeps(lib, t)
  {
    hide Valid, VersionsHeld, OrdinalsUnique;
  }

  lemma KeepsOn(lib: Library, t: Library, u: Library)
    requires Keeps(lib, t) && Keeps(t, u) && lib.versions.Keys <= t.versions.Keys && t.versions.Keys <= u.versions.Keys
    ensures Keeps(lib, u)
  {
  }

  lemma CreatedIntact(lib: Library, input: WriteInput, ids: FreshIds)
    requires Intact(lib) && Target(lib, input, ids) !in lib.objects
    ensures Intact(Created(lib, input, ids)) && Keeps(lib, Created(lib, input, ids))
  {
    ObjectsMove(lib, Created(lib, input, ids));
  }

  /** A write to an object that is there, whole or cut. */
  lemma AppendToIntact(lib: Library, o: Id, title: Id, content: Bytes, delta: Option<ContentDelta>, ids: FreshIds,
      now: Time)
    requires Intact(lib) && o in lib.objects && Fresh(lib, ids)
    ensures var t := AppendTo(lib, o, title, content, delta, ids, now); Intact(t) && Keeps(lib, t)
  {
    var t := AppendTo(lib, o, title, content, delta, ids, now);
    hide Keeps, VersionsHeld, OrdinalsUnique, Valid, LatestOf;
    var latest := LatestOf(lib.versions, o);
    if latest.Some? && lib.versions[latest.value].contentHash == Sha256(content) {
      ObjectsMove(lib, t);
    } else {
      var appended := AppendVersion(lib, o, content, delta, ids, now);
      AppendIntact(lib, o, content, delta, ids, now);
      hide AppendVersion;
      ObjectsMove(appended, t);
      KeepsOn(lib, appended, t);
    }
  }

  lemma WriteIntact(lib: Library, input: WriteInput, ids: FreshIds, now: Time)
    requires Intact(lib) && Fresh(lib, ids)
    ensures Intact(Write(lib, input, ids, now)) && Keeps(lib, Write(lib, input, ids, now))
  {
    var o, t := Target(lib, input, ids), Write(lib, input, ids, now);
    hide Keeps, VersionsHeld, OrdinalsUnique, Valid, AppendTo, AppendVersion;
    if o in lib.objects {
      AppendToIntact(lib, o, input.title, input.content, input.delta, ids, now);
    } else {
      var created := Created(lib, input, ids);
      CreatedIntact(lib, input, ids);
      AppendIntact(created, o, input.content, input.delta, ids, now);
      var appended := AppendVersion(created, o, input.content, input.delta, ids, now);
      ObjectsMove(appended, t);
      KeepsOn(lib, created, appended);
      KeepsOn(lib, appended, t);
    }
  }

  lemma AppendToCutIntact(lib: Library, o: Id, content: Bytes, delta: Option<ContentDelta>, ids: FreshIds, now: Time,
      cut: Cut)
    requires Intact(lib) && o in lib.objects && Fresh(lib, ids)
    ensures var t := AppendToCut(lib, o, content, delta, ids, now, cut); Intact(t) && Keeps(lib, t)
  {
    if AppendToCut(lib, o, content, delta, ids, now, cut) == lib {
    } else {
      hide Keeps, Intact, AppendCut;
      AppendCutIntact(lib, o, content, delta, ids, now, cut);
    }
  }

  lemma WriteCutIntact(lib: Library, input: WriteInput, ids: FreshIds, now: Time, cut: Cut)
    requires Intact(lib) && Fresh(lib, ids)
    ensures var t := After(lib, WriteCut(input, ids, now, cut)); Intact(t) && Keeps(lib, t)
  {
    var o := Target(lib, input, ids);
    hide AppendCut, AppendToCut, VersionsHeld, OrdinalsUnique, Valid;
    if o in lib.objects {
      AppendToCutIntact(lib, o, input.content, input.delta, ids, now, cut);
    } else {
      var created := Created(lib, input, ids);
      CreatedIntact(lib, input, ids);
      AppendCutIntact(created, o, input.content, input.delta, ids, now, cut);
      CutAddsRows(created, o, input.content, input.delta, ids, now, cut);
      hide Created, Keeps;
      assert created.versions == lib.versions;
      KeepsOn(lib, created, AppendCut(created, o, input.content, input.delta, ids, now, cut));
    }
  }

  lemma CutAddsRows(lib: Library, o: Id, content: Bytes, delta: Option<ContentDelta>, ids: FreshIds, now: Time,
      cut: Cut)
    ensures lib.versions.Keys <= AppendCut(lib, o, content, delta, ids, now, cut).versions.Keys
  {
  }

  // ----- sweeps and flags

  /** Rows that lose their flags, and rows that go, leave the others held as they were. */
  lemma FewerHeld(s: Store, t: Store, versions: VersionTable, others: VersionTable)
    requires VersionsHeld(s, versions) && others.Keys <= versions.Keys
    requires forall v | v in others :: SameBlobs(versions[v], others[v])
    requires t.blobs == s.blobs && forall r | r in s.refs && r.ownerId in others :: r in t.refs
    ensures VersionsHeld(t, others)
  {
    forall v | v in others
      ensures Holds(t, v, others[v])
    {
      assert Holds(s, v, versions[v]);
    }
  }

  predicate SameBlobs(v: VersionRow, w: VersionRow) {
    w.contentBlob == v.contentBlob && w.deltaBlob == v.deltaBlob && SameText(v, w)
  }

  lemma FewerNamed(lib: Library, t: Library)
    requires NamesExist(lib.objects, lib.versions) && OrdinalsUnique(lib.versions)
        && t.versions.Keys <= lib.versions.Keys
    requires forall v | v in t.versions :: SameBlobs(lib.versions[v], t.versions[v])
    requires forall v | v in lib.versions && Retained(lib, v) :: v in t.versions
    requires t.objects.Keys == lib.objects.Keys
    requires forall o | o in lib.objects :: t.objects[o].latestVersionId == lib.objects[o].latestVersionId
    ensures NamesExist(t.objects, t.versions) && OrdinalsUnique(t.versions) && Keeps(lib, t)
  {
    forall o | o in t.objects && t.objects[o].latestVersionId.Some?
      ensures t.objects[o].latestVersionId.value in t.versions
          && t.versions[t.objects[o].latestVersionId.value].objectId == o
    {
      var v := lib.objects[o].latestVersionId.value;
      assert v in lib.versions && Retained(lib, v);
    }
  }

  lemma DropIntact(lib: Library, v: Id)
    requires Intact(lib) && v in lib.versions && !Retained(lib, v)
    ensures Intact(DropVersion(lib, v)) && Keeps(lib, DropVersion(lib, v))
  {
    hide Valid, VersionsHeld, NamesExist, OrdinalsUnique, Keeps;
    DropFacts(lib, v);
    var t := DropVersion(lib, v);
    hide DropVersion, Retained;
    FewerHeld(lib.store, t.store, lib.versions, t.versions);
    FewerNamed(lib, t);
  }

  ghost predicate Sweepable(lib: Library, order: seq<Id>) {
    Distinct(order) && forall v | v in order :: v in lib.versions && !Retained(lib, v)
  }

  lemma DropOne(lib: Library, order: seq<Id>, k: nat)
    requires Sweepable(lib, order) && 0 < k <= |order|
    ensures var before, v := DropFirst(lib, order, k - 1), order[k - 1];
      v in before.versions && !Retained(before, v) && DropFirst(lib, order, k) == DropVersion(before, v)
  {
    hide DropVersion;
    assert order[k - 1] in order && order[k - 1] !in order[..k - 1];
  }

  lemma SweepKeeps(lib: Library, order: seq<Id>, k: nat)
    requires Sweepable(lib, order) && k <= |order|
    ensures Keeps(lib, DropFirst(lib, order, k))
  {
    hide DropFirst, DropVersion;
    forall v | v in lib.versions && Retained(lib, v)
      ensures v !in order[..k]
    {
      assert v !in order;
    }
  }

  lemma DropFirstOfNone(lib: Library, order: seq<Id>)
    requires Sweepable(lib, order)
    ensures DropFirst(lib, order, 0) == lib
  {
  }

  /** A version sweep cut between any two candidates takes only versions nothing retains. */
  lemma {:induction false} SweepIntact(lib: Library, order: seq<Id>, k: nat)
    requires Intact(lib) && Sweepable(lib, order) && k <= |order|
    ensures Intact(DropFirst(lib, order, k)) && Keeps(lib, DropFirst(lib, order, k))
  {
    hide Intact, DropVersion, DropFirst, Keeps, Retained;
    SweepKeeps(lib, order, k);
    if k == 0 {
      DropFirstOfNone(lib, order);
    } else {
      SweepIntact(lib, order, k - 1);
      DropOne(lib, order, k);
      DropIntact(DropFirst(lib, order, k - 1), order[k - 1]);
    }
  }

  lemma FlagsIntact(lib: Library, op: LibraryOp)
    requires Intact(lib) && Proper(lib, op)
    requires op.OSetDeleted? || op.OMarkRunReferenced? || op.OSetPinned? || op.OClearRunReferenced?
    ensures Intact(Next(lib, op)) && Keeps(lib, Next(lib, op))
  {
    hide Intact, Keeps;
    FlagsKeepVersions(lib, op);
    SameVersionsIntact(lib, Next(lib, op));
  }

  lemma FlagsKeepVersions(lib: Library, op: LibraryOp)
    requires Proper(lib, op) && (op.OSetDeleted? || op.OMarkRunReferenced? || op.OSetPinned? || op.OClearRunReferenced?)
    ensures SameVersions(lib, Next(lib, op))
  {
  }

  lemma SameVersionsIntact(lib: Library, t: Library)
    requires Intact(lib) && SameVersions(lib, t)
    ensures Intact(t) && Keeps(lib, t)
  {
    hide Valid, VersionsHeld, NamesExist, OrdinalsUnique, Keeps, Retained;
    FewerHeld(lib.store, t.store, lib.versions, t.versions);
    FewerNamed(lib, t);
  }

  lemma DereferenceHolds(s: Store, r: Ref, versions: VersionTable)
    requires Valid(s) && VersionsHeld(s, versions) && r.ownerKind != ObjectVersion
    ensures Valid(Dereference(s, r)) && VersionsHeld(Dereference(s, r), versions)
  {
    DereferenceFacts(s, r);
    hide Valid, Dereference;
    var t := Dereference(s, r);
    forall v | v in versions
      ensures Holds(t, v, versions[v])
    {
      assert Holds(s, v, versions[v]);
    }
  }

  lemma ReferenceHolds(s: Store, r: Ref, pinned: bool, versions: VersionTable)
    requires Valid(s) && VersionsHeld(s, versions)
    ensures Valid(Reference(s, r, pinned)) && VersionsHeld(Reference(s, r, pinned), versions)
  {
    assert Valid(Reference(s, r, pinned));
    hide Valid;
    SameRefsHold(s, Reference(s, r, pinned), versions);
  }

  lemma ReleaseHolds(s: Store, blob: BlobId, now: Time, versions: VersionTable)
    requires Valid(s) && VersionsHeld(s, versions)
    ensures Valid(Release(s, blob, now)) && VersionsHeld(Release(s, blob, now), versions)
  {
    ReleaseKeepsValid(s, blob, now);
    hide Valid, Release;
    SameRefsHold(s, Release(s, blob, now), versions);
  }

  lemma PutCutHolds(s: Store, bytes: Bytes, freshId: BlobId, k: nat, versions: VersionTable)
    requires Valid(s) && VersionsHeld(s, versions) && freshId !in s.blobs
    ensures var t := DoAll(s, UpTo(PutEffects(s, bytes, freshId), k)); Valid(t) && VersionsHeld(t, versions)
  {
    hide Valid, PutEffects, DoAll, UpTo, VersionsHeld, Grows;
    PutCutGrows(s, bytes, freshId, k);
    StoreGrows(s, DoAll(s, UpTo(PutEffects(s, bytes, freshId), k)), versions);
  }

  lemma WholeIsACut(s: Store, bytes: Bytes, freshId: BlobId)
    ensures Put(s, bytes, freshId) == DoAll(s, UpTo(PutEffects(s, bytes, freshId), |PutEffects(s, bytes, freshId)|))
  {
    var es := PutEffects(s, bytes, freshId);
    hide PutEffects;
    assert UpTo(es, |es|) == es;
  }

  lemma StoreOpIntact(lib: Library, op: LibraryOp)
    requires Intact(lib) && Proper(lib, op) && (op.ORelease? || op.OPut? || op.OReference? || op.ODereference?)
    ensures Intact(Next(lib, op)) && Keeps(lib, Next(lib, op))
  {
    hide Valid, VersionsHeld, Release, Put, PutEffects, Reference, Dereference, NamesExist, OrdinalsUnique, Keeps, UpTo,
        DoAll;
    match op
    case ORelease(blob, now) =>
      ReleaseHolds(lib.store, blob, now, lib.versions);
      StoreMoves(lib, Release(lib.store, blob, now));
    case OPut(bytes, freshId) =>
      WholeIsACut(lib.store, bytes, freshId);
      PutCutHolds(lib.store, bytes, freshId, |PutEffects(lib.store, bytes, freshId)|, lib.versions);
      StoreMoves(lib, Put(lib.store, bytes, freshId));
    case OReference(r, pinned) =>
      ReferenceHolds(lib.store, r, pinned, lib.versions);
      StoreMoves(lib, Reference(lib.store, r, pinned));
    case ODereference(r) =>
      DereferenceHolds(lib.store, r, lib.versions);
      StoreMoves(lib, Dereference(lib.store, r));
  }

  lemma VersionSweepIntact(lib: Library, order: seq<Id>, k: nat, now: Time, windowSeconds: int)
    requires Intact(lib) && ListsCandidates(lib, order, now, windowSeconds) && k <= |order|
    ensures Intact(DropFirst(lib, order, k)) && Keeps(lib, DropFirst(lib, order, k))
  {
    assert Sweepable(lib, order) by {
      forall v | v in order
        ensures v in lib.versions && !Retained(lib, v)
      {
        assert v in Candidates(lib, now, windowSeconds);
      }
    }
    hide Intact, DropFirst, Keeps, Sweepable;
    SweepIntact(lib, order, k);
  }

  lemma BlobSweepIntact(lib: Library, orphans: seq<BlobId>, k: nat)
    requires Intact(lib) && ListsOrphans(lib.store, orphans)
    ensures var t := lib.(store := DoAll(lib.store, UpTo(CompactEffects(lib.store, orphans), k)));
        Intact(t) && Keeps(lib, t)
  {
    hide Valid, VersionsHeld, NamesExist, OrdinalsUnique, Keeps, UpTo, DoAll, CompactEffects;
    SweepCutHolds(lib.store, orphans, k, lib.versions);
    StoreMoves(lib, DoAll(lib.store, UpTo(CompactEffects(lib.store, orphans), k)));
  }

  lemma WholeSweepIsACut(lib: Library, orphans: seq<BlobId>)
    requires ListsOrphans(lib.store, orphans)
    ensures CompactBlobs(lib, orphans)
         == lib.(store := DoAll(lib.store,
             UpTo(CompactEffects(lib.store, orphans), |CompactEffects(lib.store, orphans)|)))
  {
    var es := CompactEffects(lib.store, orphans);
    hide CompactEffects;
    assert UpTo(es, |es|) == es;
  }

  // ----- runs

  lemma WholeIntact(lib: Library, op: LibraryOp)
    requires Intact(lib) && Proper(lib, op)
    ensures Intact(Next(lib, op)) && Keeps(lib, Next(lib, op))
  {
    hide Intact, Keeps, Write, AppendTo, DropFirst, CompactBlobs, UpTo, DoAll, CompactEffects, ListsCandidates,
        ListsOrphans;
    match op
    case OWrite(input, ids, now) => WriteIntact(lib, input, ids, now);
    case OEdit(o, title, content, delta, ids, now) =>
      AppendToIntact(lib, o, if title.Some? then title.value else lib.objects[o].title, content, delta, ids, now);
    case OCompactVersions(order, now, windowSeconds) => VersionSweepIntact(lib, order, |order|, now, windowSeconds);
    case OCompactBlobs(orphans) =>
      WholeSweepIsACut(lib, orphans);
      BlobSweepIntact(lib, orphans, |CompactEffects(lib.store, orphans)|);
    case _ =>
      if op.ORelease? || op.OPut? || op.OReference? || op.ODereference? {
        StoreOpIntact(lib, op);
      } else {
        FlagsIntact(lib, op);
      }
  }

  /** Whole or cut, a step leaves every version held, and takes only versions that nothing names, pins or references. */
  lemma AfterIntact(lib: Library, op: CrashOp)
    requires Intact(lib) && ProperCut(lib, op)
    ensures Intact(After(lib, op)) && Keeps(lib, After(lib, op))
  {
    match op
    case Whole(whole) =>
      hide Intact, Keeps, Next, Proper;
      WholeIntact(lib, whole);
    case PutCut(bytes, freshId, k) =>
      hide Valid, VersionsHeld, NamesExist, OrdinalsUnique, Keeps, UpTo, DoAll, PutEffects;
      PutCutHolds(lib.store, bytes, freshId, k, lib.versions);
      StoreMoves(lib, DoAll(lib.store, UpTo(PutEffects(lib.store, bytes, freshId), k)));
    case BlobSweepCut(orphans, k) =>
      hide Intact, Keeps, UpTo, DoAll, CompactEffects;
      BlobSweepIntact(lib, orphans, k);
    case VersionSweepCut(order, k, now, windowSeconds) =>
      hide Intact, Keeps, DropFirst, ListsCandidates;
      VersionSweepIntact(lib, order, k, now, windowSeconds);
    case WriteCut(input, ids, now, cut) =>
      hide Intact, Keeps, After;
      WriteCutIntact(lib, input, ids, now, cut);
    case EditCut(o, content, delta, ids, now, cut) =>
      hide Intact, Keeps, AppendToCut;
      AppendToCutIntact(lib, o, content, delta, ids, now, cut);
  }

  ghost predicate IsCrashRun(states: seq<Library>, ops: seq<CrashOp>) {
    |states| == |ops| + 1 && forall k: nat | k < |ops| ::
        ProperCut(states[k], ops[k]) && states[k + 1] == After(states[k], ops[k])
  }

  lemma {:induction false} CrashRunsStayIntact(states: seq<Library>, ops: seq<CrashOp>, k: nat)
    requires IsCrashRun(states, ops) && Intact(states[0]) && k <= |ops|
    ensures Intact(states[k])
    ensures k > 0 ==> Keeps(states[k - 1], states[k])
  {
    hide Intact, Keeps, After, ProperCut;
    if k > 0 {
      CrashRunsStayIntact(states, ops, k - 1);
      AfterIntact(states[k - 1], ops[k - 1]);
    }
  }

  lemma {:induction false} SurvivorsKeepTheirText(states: seq<Library>, ops: seq<CrashOp>, v: Id, i: nat, j: nat)
    requires IsCrashRun(states, ops) && Intact(states[0]) && i <= j <= |ops|
    requires forall k | i <= k <= j :: v in states[k].versions
    ensures SameText(states[i].versions[v], states[j].versions[v])
  {
    hide Intact, After, ProperCut;
    if j > i {
      SurvivorsKeepTheirText(states, ops, v, i, j - 1);
      CrashRunsStayIntact(states, ops, j);
    }
  }

  /**
   * Content outlives crashes: through any run, cut wherever it may be, a version that is still there reads back the
   * bytes it was written with, its delta exactly when that has a summary, or says that the blob was released.
   */
  lemma SurvivorsReadBackThroughCrashes(states: seq<Library>, ops: seq<CrashOp>, v: Id, i: nat, j: nat)
    requires IsCrashRun(states, ops) && Intact(states[0]) && i <= j <= |ops|
    requires forall k | i <= k <= j :: v in states[k].versions
    ensures ReadsAsWritten(states[i].versions[v], states[j], v)
  {
    SurvivorsKeepTheirText(states, ops, v, i, j);
    CrashRunsStayIntact(states, ops, j);
    hide After, ProperCut, Get, Keeps, Valid, VersionsHeld;
    VersionReadsBack(states[j], v);
  }

  /** Through any such run, a version is there for as long as every step finds it named, pinned or run-referenced. */
  lemma {:induction false} RetainedThroughCrashes(states: seq<Library>, ops: seq<CrashOp>, v: Id, i: nat, j: nat)
    requires IsCrashRun(states, ops) && Intact(states[0]) && i <= j <= |ops| && v in states[i].versions
    requires forall k | i <= k < j :: v in states[k].versions ==> Retained(states[k], v)
    ensures v in states[j].versions
  {
    hide Intact, After, ProperCut, Retained;
    if j > i {
      RetainedThroughCrashes(states, ops, v, i, j - 1);
      CrashRunsStayIntact(states, ops, j);
    }
  }

  // ----- what a cut before the naming costs

  /** The object's highest version is the one it names, as in every library no cut has touched. */
  ghost predicate NamesHighest(lib: Library, o: Id) {
    o in lib.objects && LatestOf(lib.versions, o) == lib.objects[o].latestVersionId
  }

  lemma UncutNamesHighest(lib: Library, o: Id)
    requires LibraryValid(lib) && o in lib.objects
    ensures NamesHighest(lib, o)
  {
    hide Valid, VersionsHeld, HeldForVersions, ExternalUnique;
    LatestIsNamed(lib, o);
  }

  lemma RowInIsHighest(lib: Library, o: Id, content: Bytes, delta: Option<ContentDelta>, ids: FreshIds, now: Time)
    requires Intact(lib) && NamesHighest(lib, o) && Fresh(lib, ids)
    ensures var t, v := AppendCut(lib, o, content, delta, ids, now, RowIn), ids.version;
      && t.objects == lib.objects && v in t.versions && t.versions == lib.versions[v := t.versions[v]]
      && t.versions[v].objectId == o && t.versions[v].contentHash == Sha256(content) && t.versions[v].createdAt == now
      && !t.versions[v].pinned && !t.versions[v].runReferenced
      && LatestOf(t.versions, o) == Some(v) && t.objects[o].latestVersionId != Some(v)
      && t.versions[v].ordinal == NextOrdinal(lib.versions, o)
  {
    var t, v := AppendVersion(lib, o, content, delta, ids, now), ids.version;
    hide Hold, PutId, Valid, VersionsHeld, OrdinalsUnique;
    NextNumber(lib, o);
    assert IsLatest(t.versions, o, v);
  }

  /** The number the object's next version is given. */
  ghost function NextOrdinal(versions: VersionTable, o: Id): int {
    (if LatestOf(versions, o).Some? then versions[LatestOf(versions, o).value].ordinal else 0) + 1
  }

  /**
   * A crash after a version's row and before its naming leaves a version that reads as the latest and is not named so.
   * The sweep takes it exactly when it is older than the window, and writing the same content again does not save it.
   */
  lemma UnnamedIsSweptIff(lib: Library, o: Id, content: Bytes, delta: Option<ContentDelta>, ids: FreshIds, now: Time,
    title: Id, retryIds: FreshIds, retryAt: Time, later: Time, windowSeconds: int)
    requires Intact(lib) && NamesHighest(lib, o) && Fresh(lib, ids)
    ensures var t := AppendCut(lib, o, content, delta, ids, now, RowIn);
      var retried := AppendTo(t, o, title, content, delta, retryIds, retryAt);
      && LatestOf(t.versions, o) == Some(ids.version) && retried.versions == t.versions
      && (ids.version in Candidates(t, later, windowSeconds) <==> now < later - windowSeconds)
      && (ids.version in Candidates(retried, later, windowSeconds) <==> now < later - windowSeconds)
  {
    RowInIsHighest(lib, o, content, delta, ids, now);
    hide AppendCut, AppendVersion, Intact, LatestOf;
  }

  lemma NextOrdinalIs(versions: VersionTable, o: Id, v: Id)
    requires IsLatest(versions, o, v)
    ensures NextOrdinal(versions, o) == versions[v].ordinal + 1
  {
  }

  lemma HighestStays(lib: Library, t: Library, swept: Library, o: Id, v: Id)
    requires NamesHighest(lib, o) && t.objects == lib.objects && Keeps(t, swept)
        && swept.versions.Keys <= lib.versions.Keys
    requires v !in lib.versions && v in t.versions && t.versions == lib.versions[v := t.versions[v]]
    requires forall w | w in swept.versions :: swept.versions[w] == lib.versions[w]
    ensures NextOrdinal(swept.versions, o) == NextOrdinal(lib.versions, o)
  {
    LatestIsHighest(lib.versions, o);
    if LatestOf(lib.versions, o).Some? {
      var w := LatestOf(lib.versions, o).value;
      assert Retained(t, w);
      assert IsLatest(swept.versions, o, w);
      NextOrdinalIs(swept.versions, o, w);
    }
  }

  /** After that sweep the object's next version is given the lost one's number, and otherwise the number after it. */
  lemma NumberIsReusedIff(lib: Library, o: Id, content: Bytes, delta: Option<ContentDelta>, ids: FreshIds, now: Time,
    order: seq<Id>, later: Time, windowSeconds: int)
    requires Intact(lib) && NamesHighest(lib, o) && Fresh(lib, ids)
    requires ListsCandidates(AppendCut(lib, o, content, delta, ids, now, RowIn), order, later, windowSeconds)
    ensures var t := AppendCut(lib, o, content, delta, ids, now, RowIn);
      var swept := CompactVersions(t, order, later, windowSeconds);
      NextOrdinal(swept.versions, o) == t.versions[ids.version].ordinal + (if now < later - windowSeconds then 0 else 1)
  {
    var t, v := AppendCut(lib, o, content, delta, ids, now, RowIn), ids.version;
    RowInIsHighest(lib, o, content, delta, ids, now);
    AppendCutIntact(lib, o, content, delta, ids, now, RowIn);
    var swept := CompactVersions(t, order, later, windowSeconds);
    VersionSweepIntact(t, order, |order|, later, windowSeconds);
    assert order[..|order|] == order;
    assert v in order <==> v in Candidates(t, later, windowSeconds);
    hide AppendCut, CompactVersions;
    if now < later - windowSeconds {
      HighestStays(lib, t, swept, o, v);
    } else {
      assert IsLatest(swept.versions, o, v);
      NextOrdinalIs(swept.versions, o, v);
    }
  }
}
