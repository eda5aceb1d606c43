/**
 * The object store and the maintenance sweep as they run, over the blob store (packages/db/src/object-store.ts,
 * packages/db/src/maintenance.ts).
 */
module ObjectStore {
  import opened Wrappers
  import opened Sorting
  import opened Blobs
  import opened BlobStore
  import opened Versions

  class ObjectStore {
    const blobs: BlobStore
    var objects: map<Id, ObjectRecord>
    var versions: VersionTable

    ghost function Contents(): Library
      reads this, blobs
    {
      Library(blobs.Contents(), objects, versions)
    }

    constructor (blobs: BlobStore)
      requires Valid(blobs.Contents()) && blobs.refs == map[]
      ensures this.blobs == blobs && Contents() == Library(blobs.Contents(), map[], map[]) && LibraryValid(Contents())
    {
      this.blobs := blobs;
      objects, versions := map[], map[];
    }

    method LatestVersionRow(o: Id) returns (v: Option<Id>)
      requires OrdinalsUnique(versions)
      ensures v == LatestOf(versions, o)
    {
      if v' :| v' in versions && versions[v'].objectId == o
               && forall w | w in versions && versions[w].objectId == o :: versions[w].ordinal <= versions[v'].ordinal {
        assert IsLatest(versions, o, v');
        ghost var named := LatestOf(versions, o).value;
        assert versions[named].ordinal == versions[v'].ordinal;
        return Some(v');
      }
      return None;
    }

    /** Put a blob and reference it for a version. */
    method Hold(bytes: Bytes, freshId: BlobId, version: Id) returns (id: BlobId)
      requires Valid(blobs.Contents()) && freshId !in blobs.blobs
      modifies blobs
      ensures blobs.Contents() == Versions.Hold(old(blobs.Contents()), bytes, freshId, version)
      ensures id == PutId(old(blobs.Contents()), bytes, freshId)
    {
      hide Blobs.Put, Blobs.PutId, PutEffects, Valid;
      var stored := blobs.Put(bytes, freshId);
      blobs.Reference(Ref(stored.id, ObjectVersion, version), false);
      id := stored.id;
    }

    method AppendVersion(o: Id, content: Bytes, delta: Option<ContentDelta>, ids: FreshIds, now: Time)
      requires Valid(blobs.Contents()) && OrdinalsUnique(versions)
      requires ids.content !in blobs.blobs && ids.delta !in blobs.blobs && ids.content != ids.delta
      modifies this, blobs
      ensures Contents() == Versions.AppendVersion(old(Contents()), o, content, delta, ids, now)
    {
      hide Versions.Hold, Valid, LatestOf;
      ghost var s := blobs.Contents();
      var previous := LatestVersionRow(o);
      var ordinal := (if previous.Some? then versions[previous.value].ordinal else 0) + 1;
      HoldGrows(s, content, ids.content, ids.version);
      IdIsFreshOrOld(s, content, ids.content);
      var contentBlob := Hold(content, ids.content, ids.version);
      var kept := ChooseDelta(delta, content);
      var deltaBlob: Option<BlobId>, deltaHash: Option<Hash>, deltaSummary: Option<string> := None, None, None;
      if kept.Some? {
        var id := Hold(kept.value.body, ids.delta, ids.version);
        deltaBlob, deltaHash, deltaSummary := Some(id), Some(Sha256(kept.value.body)), Some(kept.value.summary);
      }
      versions := versions[ids.version :=
        VersionRow(o, ordinal, Sha256(content), contentBlob, deltaBlob, deltaHash, deltaSummary, false, false, now)];
    }

    /** Append a version unless the content is what the latest one already holds. */
    method AppendTo(o: Id, title: Id, content: Bytes, delta: Option<ContentDelta>, ids: FreshIds, now: Time)
        returns (created: bool)
      requires LibraryValid(Contents()) && o in objects && Fresh(Contents(), ids)
      modifies this, blobs
      ensures Contents() == Versions.AppendTo(old(Contents()), o, title, content, delta, ids, now)
      ensures created <==> ids.version in versions
    {
      hide Versions.AppendVersion, Valid, VersionsHeld, HeldForVersions, LatestNamesHighest, LatestOf;
      var latest := LatestVersionRow(o);
      if latest.Some? && versions[latest.value].contentHash == Sha256(content) {
        objects := objects[o := objects[o].(title := title)];
        return false;
      }
      ghost var before := Contents();
      AppendVersionFacts(before, o, content, delta, ids, now);
      AppendVersion(o, content, delta, ids, now);
      objects := objects[o := objects[o].(title := title, latestVersionId := Some(ids.version))];
      return true;
    }

    /** Create or reconcile: by outside identity first, then by the caller's own id. */
    method Write(input: WriteInput, ids: FreshIds, now: Time) returns (o: Id)
      requires LibraryValid(Contents()) && Fresh(Contents(), ids)
      modifies this, blobs
      ensures Contents() == Versions.Write(old(Contents()), input, ids, now)
      ensures o == Target(old(Contents()), input, ids)
    {
      hide Versions.AppendVersion, Versions.AppendTo, Valid, VersionsHeld, HeldForVersions, LatestNamesHighest;
      if x :| x in objects && input.external.Some? && objects[x].external == input.external {
        o := x;
        assert FindByExternal(Contents(), input.external) == Some(x);
      } else {
        o := if input.objectId.Some? then input.objectId.value else ids.obj;
      }
      if o in objects {
        var created := AppendTo(o, input.title, input.content, input.delta, ids, now);
        return;
      }
      objects := objects[o := ObjectRecord(input.external, input.title, None, None)];
      ghost var before := Contents();
      AppendVersionFacts(before, o, input.content, input.delta, ids, now);
      AppendVersion(o, input.content, input.delta, ids, now);
      objects := objects[o := objects[o].(latestVersionId := Some(ids.version))];
    }

    method Edit(o: Id, title: Option<Id>, content: Bytes, delta: Option<ContentDelta>, ids: FreshIds, now: Time)
        returns (ok: bool)
      requires LibraryValid(Contents()) && Fresh(Contents(), ids)
      modifies this, blobs
      ensures ok <==> o in old(objects)
      ensures Contents() == if ok then Versions.Edit(old(Contents()), o, title, content, delta, ids, now)
          else old(Contents())
    {
      hide Versions.AppendTo, LibraryValid;
      if o !in objects {
        return false;
      }
      var created := AppendTo(o, if title.Some? then title.value else objects[o].title, content, delta, ids, now);
      return true;
    }

    method Delete(o: Id, now: Time)
      modifies this
      ensures Contents() == SetDeleted(old(Contents()), o, Some(now))
    {
      if o in objects && objects[o].deletedAt.None? {
        objects := objects[o := objects[o].(deletedAt := Some(now))];
      }
    }

    method Restore(o: Id)
      modifies this
      ensures Contents() == SetDeleted(old(Contents()), o, None)
    {
      if o in objects {
        objects := objects[o := objects[o].(deletedAt := None)];
      }
    }

    method MarkRunReferenced(vs: set<Id>, pinned: bool)
      modifies this
      ensures Contents() == Versions.MarkRunReferenced(old(Contents()), vs, pinned)
      ensures forall v | v in versions && v in vs :: versions[v].runReferenced && (pinned ==> versions[v].pinned)
    {
      versions := map v | v in versions ::
        if v in vs then versions[v].(runReferenced := true, pinned := pinned || versions[v].pinned) else versions[v];
    }

    method SetPinned(vs: set<Id>, pinned: bool)
      modifies this
      ensures Contents() == Versions.SetPinned(old(Contents()), vs, pinned)
    {
      versions := map v | v in versions :: if v in vs then versions[v].(pinned := pinned) else versions[v];
    }

    method CandidateList(now: Time, windowSeconds: int) returns (order: seq<Id>)
      ensures ListsCandidates(Contents(), order, now, windowSeconds)
    {
      order := [];
      var todo := set v | v in versions && !versions[v].runReferenced && !versions[v].pinned
                          && versions[v].createdAt < now - windowSeconds
                          && versions[v].objectId in objects
                          && objects[versions[v].objectId].latestVersionId != Some(v);
      ghost var all := todo;
      assert all == Candidates(Contents(), now, windowSeconds);
      while todo != {}
        invariant todo <= all && Distinct(order)
        invariant forall v :: v in order <==> v in all - todo
        decreases todo
      {
        var v :| v in todo;
        DistinctAppend(order, v);
        order := order + [v];
        todo := todo - {v};
      }
    }

    /** Drop each candidate in a transaction of its own: its references, then its row. */
    method CompactVersions(now: Time, windowSeconds: int) returns (removed: nat, ghost order: seq<Id>)
      modifies this, blobs
      ensures ListsCandidates(old(Contents()), order, now, windowSeconds) && removed == |order|
      ensures Contents() == Versions.CompactVersions(old(Contents()), order, now, windowSeconds)
    {
      ghost var before := Contents();
      var candidates := CandidateList(now, windowSeconds);
      order := candidates;
      CandidatesDrop(before, candidates, now, windowSeconds);
      DropNone(before, candidates);
      hide DropFirst, Droppable, ListsCandidates;
      for k := 0 to |candidates|
        invariant Contents() == DropFirst(before, candidates, k)
      {
        DropNth(before, candidates, k);
      }
      removed := |candidates|;
    }

    method DropNth(ghost before: Library, candidates: seq<Id>, k: nat)
      requires Droppable(before, candidates) && k < |candidates| && Contents() == DropFirst(before, candidates, k)
      modifies this, blobs
      ensures Contents() == DropFirst(before, candidates, k + 1)
    {
      DropNext(before, candidates, k + 1);
      hide DropFirst, DropVersion, Droppable;
      DropOne(candidates[k]);
    }

    method DropOne(v: Id)
      requires v in versions
      modifies this, blobs
      ensures Contents() == DropVersion(old(Contents()), v)
    {
      var row := versions[v];
      blobs.Dereference(Ref(row.contentBlob, ObjectVersion, v));
      if row.deltaBlob.Some? {
        blobs.Dereference(Ref(row.deltaBlob.value, ObjectVersion, v));
      }
      versions := versions - {v};
    }
  }

  datatype CompactionResult = CompactionResult(versionsRemoved: nat, blobsRemoved: nat, bytesFreed: nat)

  class Maintenance {
    const objects: ObjectStore

    constructor (objects: ObjectStore)
      ensures this.objects == objects
    {
      this.objects := objects;
    }

    /** Versions first, because dropping them is what frees references; then the blobs nothing points at any more. */
    method Compact(now: Time, windowSeconds: int)
        returns (r: CompactionResult, ghost dropped: seq<Id>, ghost orphans: seq<BlobId>)
      requires LibraryValid(objects.Contents())
      modifies objects, objects.blobs
      ensures ListsCandidates(old(objects.Contents()), dropped, now, windowSeconds)
      ensures ListsOrphans(CompactVersions(old(objects.Contents()), dropped, now, windowSeconds).store, orphans)
      ensures objects.Contents()
          == CompactBlobs(CompactVersions(old(objects.Contents()), dropped, now, windowSeconds), orphans)
      ensures r.versionsRemoved == |dropped| && r.blobsRemoved == |orphans|
      ensures LibraryValid(objects.Contents())
      ensures Candidates(objects.Contents(), now, windowSeconds) == {} && Orphans(objects.Contents().store) == {}
    {
      hide LibraryValid, CompactVersions, Blobs.Compact;
      ghost var before := objects.Contents();
      var removed;
      removed, dropped := objects.CompactVersions(now, windowSeconds);
      CompactsExactlyCompactable(before, dropped, now, windowSeconds);
      var swept;
      swept, orphans := objects.blobs.Compact();
      CompactBlobsKeepsValid(CompactVersions(before, dropped, now, windowSeconds), orphans);
      SweepTwiceRemovesNothingMore(before, dropped, orphans, now, windowSeconds);
      r := CompactionResult(removed, swept.removed, swept.bytesFreed);
    }
  }
}
