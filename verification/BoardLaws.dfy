/**
 * What each gesture leaves in the rows, and what one gesture means for the next (packages/db/src/graph-store.ts,
 * command-store.ts).
 */
module BoardLaws {
  import opened Wrappers
  import opened Edges
  import opened Lineage
  import opened Board
  import opened BoardUndo

  // ----- a new wire

  /** The wires that come into a node, live, in the order of their ordinals. */
  predicate LiveInput(s: State, n: NodeId, i: nat) {
    i < |s.edges| && s.edges[i].kind.Context? && s.edges[i].deletedAt.None? && s.edges[i].to == n
  }

  lemma {:induction false} HighestOrdinal(edges: seq<EdgeRow>, n: NodeId)
    ensures MaxOrdinal(edges, n).Some? ==> exists i | 0 <= i < |edges| ::
      edges[i].kind.Context? && edges[i].deletedAt.None? && edges[i].to == n
      && edges[i].kind.ordinal == MaxOrdinal(edges, n).value
    decreases |edges|
  {
    if edges != [] {
      HighestOrdinal(edges[..|edges| - 1], n);
      var k := |edges| - 1;
      if MaxOrdinal(edges, n).Some? && MaxOrdinal(edges, n) == MaxOrdinal(edges[..k], n) {
        var i :| 0 <= i < k && edges[i].kind.Context? && edges[i].deletedAt.None? && edges[i].to == n
          && edges[i].kind.ordinal == MaxOrdinal(edges, n).value;
      }
    }
  }

  /** The gesture repeats no edge id that is on the board. */
  predicate NewEdgeId(s: State, input: ContextInput) {
    input.edgeId.Some? ==> forall i | 0 <= i < |s.edges| :: s.edges[i].id != input.edgeId.value
  }

  /**
   * A wire that lands is one row more, at the end, as it was asked for; without a place of its own it comes last, one
   * behind the highest live input, or first of all if there is none.
   */
  lemma WireLands(s: State, input: ContextInput, freshId: Id)
    requires Constraints(s) && Rooted(s.lineage) && NewEdgeId(s, input) && AddContextEdge(s, input, freshId).Done?
    ensures var t, row := AddContextEdge(s, input, freshId).state, AddContextEdge(s, input, freshId).value;
      && t == s.(edges := t.edges) && t.edges == s.edges + [row]
      && row.id == (if input.edgeId.Some? then input.edgeId.value else freshId)
      && row.from == input.from && row.to == input.to && row.deletedAt.None?
      && row.kind.Context? && row.kind.author == input.author
      && (input.ordinal.Some? ==> row.kind.ordinal == input.ordinal.value)
      && (input.ordinal.None? ==>
            && (forall i: nat | LiveInput(s, input.to, i) :: s.edges[i].kind.ordinal < row.kind.ordinal)
            && (row.kind.ordinal == 1 || exists i: nat ::
                  LiveInput(s, input.to, i) && s.edges[i].kind.ordinal + 1 == row.kind.ordinal)
            && ((forall i: nat :: !LiveInput(s, input.to, i)) ==> row.kind.ordinal == 1))
  {
    HighestOrdinal(s.edges, input.to);
    hide Constraints, RefuseWire;
    var m := MaxOrdinal(s.edges, input.to);
    if m.Some? {
      var i :| 0 <= i < |s.edges| && s.edges[i].kind.Context? && s.edges[i].deletedAt.None? && s.edges[i].to == input.to
        && s.edges[i].kind.ordinal == m.value;
      assert LiveInput(s, input.to, i);
    }
  }

  /**
   * A gesture that names an edge again gets that edge, if it is the same wire and still there, and nothing is written.
   */
  lemma RetriedWire(s: State, input: ContextInput, freshId: Id, k: nat)
    requires Constraints(s) && Rooted(s.lineage) && k < |s.edges| && input.edgeId == Some(s.edges[k].id)
    ensures var r := AddContextEdge(s, input, freshId);
      if s.edges[k].from != input.from || s.edges[k].to != input.to then r == Refused(EdgeIdCollision)
      else if s.edges[k].deletedAt.Some? then r == Refused(EdgeDeleted)
      else r == Done(s, s.edges[k])
  {
    assert EdgeAt(s.edges, s.edges[k].id) == k;
    hide Constraints, RefuseWire;
  }

  // ----- why a wire is refused

  predicate OnBoard(s: State, input: ContextInput) {
    input.from in s.nodes && input.to in s.nodes
  }

  predicate Present(s: State, input: ContextInput) {
    OnBoard(s, input) && s.nodes[input.from].deletedAt.None? && s.nodes[input.to].deletedAt.None?
  }

  /** One of the two legal shapes: content into a command, or into a session that is running. */
  predicate Fits(s: State, input: ContextInput) {
    && Present(s, input) && s.nodes[input.from].role.Content?
    && (s.nodes[input.to].role.Command? || (s.nodes[input.to].role.Session? && s.nodes[input.to].running))
  }

  /** The content is an object of another workstream that is not the world's. */
  predicate ForeignObject(s: State, input: ContextInput)
    requires OnBoard(s, input)
  {
    var content := s.nodes[input.from].refId;
    && content in s.objects && s.objects[content].scope.Local? && s.objects[content].workstream.Some?
    && s.objects[content].workstream != s.nodes[input.to].workstream
  }

  /** The content is a placeholder, and it is taken into another workstream than its command's. */
  predicate Exported(s: State, input: ContextInput)
    requires OnBoard(s, input) && OutputChecks(s)
  {
    var content := s.nodes[input.from].refId;
    content in s.outputs && s.nodes[input.to].workstream != Some(s.commands[s.outputs[content].command].workstream)
  }

  /** Why a placeholder may not be used here; `None` if it may, or if the content is none. */
  predicate OutputReason(s: State, input: ContextInput, reason: Option<Refusal>)
    requires OnBoard(s, input) && OutputChecks(s)
  {
    var content := s.nodes[input.from].refId;
    var broken := content in s.outputs && s.outputs[content].brokenAt.Some?;
    var abroad := Exported(s, input) && !broken;
    && (reason == Some(BrokenOutput) <==> broken)
    && (reason == Some(LocalBoundOutput) <==>
          abroad && s.outputs[content].boundObject.Some?
          && s.objects[s.outputs[content].boundObject.value].scope.Local?)
    && (reason == Some(UnpublishedOutput) <==>
          abroad && s.outputs[content].boundObject.None? && s.outputs[content].publishedAt.None?)
    && (reason.Some? ==>
          reason == Some(BrokenOutput) || reason == Some(LocalBoundOutput) || reason == Some(UnpublishedOutput))
  }

  /** A session writes into its own chain: into itself, one that had a part in starting it, or one it had a part in. */
  ghost predicate IntoOwnChain(s: State, input: ContextInput)
    requires OnBoard(s, input) && Rooted(s.lineage)
  {
    && input.author.BySession? && s.nodes[input.to].role.Session?
    && var writer, reader := input.author.session, s.nodes[input.to].refId;
       writer == reader || reader in Ancestors(s.lineage, writer) || writer in Ancestors(s.lineage, reader)
  }

  predicate WiredAlready(s: State, input: ContextInput) {
    exists i | 0 <= i < |s.edges| ::
      s.edges[i].kind.Context? && s.edges[i].deletedAt.None? && s.edges[i].from == input.from
      && s.edges[i].to == input.to
  }

  /** The object and placeholder rules say what is wrong with a content, the object rule first. */
  lemma SourceReason(s: State, input: ContextInput)
    requires Constraints(s) && OnBoard(s, input)
    ensures var told := CheckSource(s, s.nodes[input.from].refId, s.nodes[input.to].workstream);
      && (told == Some(LocalObject) <==> ForeignObject(s, input))
      && (!ForeignObject(s, input) ==> OutputReason(s, input, told))
  {
    hide LiveIndexes, EdgeReferences, EdgeKeys, NodeKeys;
  }

  /** Whoever draws a new wire is told the first thing that is wrong with it, and each reason for that thing alone. */
  lemma ReasonIff(s: State, input: ContextInput, freshId: Id)
    requires Constraints(s) && Rooted(s.lineage) && NewEdgeId(s, input)
    ensures var r := AddContextEdge(s, input, freshId);
      && (r == Refused(NotFound) <==> !OnBoard(s, input))
      && (r == Refused(NodeDeleted) <==> OnBoard(s, input) && !Present(s, input))
      && (r.Refused? && r.reason.Illegal? <==> Present(s, input) && !Fits(s, input))
      && (r == Refused(LocalObject) <==> Fits(s, input) && ForeignObject(s, input))
      && (Fits(s, input) && !ForeignObject(s, input) ==>
            exists told :: OutputReason(s, input, told)
              && (told.Some? ==> r == Refused(told.value))
              && (told.None? ==>
                    && (r == Refused(OwnChain) <==> IntoOwnChain(s, input))
                    && (r == Refused(Duplicate) <==> !IntoOwnChain(s, input) && WiredAlready(s, input))
                    && (r.Refused? ==>
                          || r.reason == OwnChain || r.reason == Duplicate || r.reason == WouldClose
                          || r.reason == ConstraintViolated)))
  {
    assert input.edgeId.Some? ==> EdgeAt(s.edges, input.edgeId.value) == |s.edges|;
    if Fits(s, input) {
      var told := CheckSource(s, s.nodes[input.from].refId, s.nodes[input.to].workstream);
      SourceReason(s, input);
      SourceReasons(s, s.nodes[input.from].refId, s.nodes[input.to].workstream);
      hide CheckSource, Constraints, IntroducesCycle, NewWire, OutputReason, ForeignObject;
      assert OutputReason(s, input, told) || ForeignObject(s, input);
    } else {
      hide CheckSource, Constraints, IntroducesCycle, NewWire;
    }
  }

  lemma SourceReasons(s: State, refId: Id, target: Option<Id>)
    requires OutputChecks(s)
    ensures var told := CheckSource(s, refId, target);
      || told.None? || told == Some(LocalObject) || told == Some(BrokenOutput) || told == Some(LocalBoundOutput)
      || told == Some(UnpublishedOutput)
  {
  }

  // ----- placing and running

  /** A subject has one node: it is found again while it lives, refused once removed, and otherwise placed as asked. */
  lemma PlaceLaw(s: State, role: NodeRole, refId: Id, workstream: Option<Id>, running: bool, id: NodeId)
    requires Constraints(s)
    ensures var r := Place(s, role, refId, workstream, running, id);
      && (forall n | n in s.nodes && s.nodes[n].role == role && s.nodes[n].refId == refId ::
            r == if s.nodes[n].deletedAt.Some? then Refused(NodeDeleted) else Done(s, n))
      && ((forall n | n in s.nodes :: s.nodes[n].role != role || s.nodes[n].refId != refId) && r.Done? ==>
            && r.value == id && id !in s.nodes && id in r.state.nodes && r.state == s.(nodes := r.state.nodes)
            && r.state.nodes == s.nodes[id := r.state.nodes[id]]
            && r.state.nodes[id].role == role && r.state.nodes[id].refId == refId
            && r.state.nodes[id].workstream == workstream && r.state.nodes[id].running == running
            && r.state.nodes[id].deletedAt.None?)
  {
    forall n | n in s.nodes && s.nodes[n].role == role && s.nodes[n].refId == refId
      ensures Place(s, role, refId, workstream, running, id)
        == if s.nodes[n].deletedAt.Some? then Refused(NodeDeleted) else Done(s, n)
    {
      PlacedAgain(s, role, refId, workstream, running, id, n);
    }
    if forall n | n in s.nodes :: s.nodes[n].role != role || s.nodes[n].refId != refId {
      PlacedAnew(s, role, refId, workstream, running, id);
    }
    hide Constraints, Place;
  }

  lemma PlacedAgain(s: State, role: NodeRole, refId: Id, workstream: Option<Id>, running: bool, id: NodeId, n: NodeId)
    requires NodeKeys(s.nodes) && n in s.nodes && s.nodes[n].role == role && s.nodes[n].refId == refId
    ensures Place(s, role, refId, workstream, running, id)
      == if s.nodes[n].deletedAt.Some? then Refused(NodeDeleted) else Done(s, n)
  {
    assert NodeFor(s, role, refId) == Some(n);
    hide Constraints, NodeFor, NodeKeys;
  }

  lemma PlacedAnew(s: State, role: NodeRole, refId: Id, workstream: Option<Id>, running: bool, id: NodeId)
    requires forall n | n in s.nodes :: s.nodes[n].role != role || s.nodes[n].refId != refId
    ensures var r := Place(s, role, refId, workstream, running, id);
      r.Done? ==>
        && r.value == id && id !in s.nodes
        && r.state == s.(nodes := s.nodes[id := NodeRow(role, refId, workstream, running, None)])
  {
    assert NodeFor(s, role, refId).None?;
    hide Constraints, NodeFor;
  }

  /** A local object is placed only in its own workstream, and a world object anywhere. */
  lemma PlacedAtHome(s: State, refId: Id, workstream: Option<Id>, id: NodeId)
    requires Constraints(s) && refId in s.objects && id !in s.nodes
    requires forall n | n in s.nodes :: !s.nodes[n].role.Content? || s.nodes[n].refId != refId
    ensures Place(s, Content, refId, workstream, false, id) == Refused(LocalObject) <==>
      s.objects[refId].scope.Local? && s.objects[refId].workstream != workstream
  {
    hide LiveIndexes, EdgeReferences, OutputChecks, EdgeKeys;
  }

  /** A session node told to run runs, one told to stop does not, and a wire into it depends on that. */
  lemma RunningOpens(s: State, n: NodeId, running: bool, from: NodeId)
    requires Constraints(s) && Rooted(s.lineage) && n in s.nodes && s.nodes[n].role.Session? && from in s.nodes
    requires s.nodes[n].deletedAt.None? && s.nodes[from].deletedAt.None? && s.nodes[from].role.Content? && from != n
    ensures var t := SetRunning(s, n, running);
      && t == s.(nodes := t.nodes) && t.nodes.Keys == s.nodes.Keys
      && (forall m | m in s.nodes && m != n :: t.nodes[m] == s.nodes[m])
      && t.nodes[n].running == running && t.nodes[n] == s.nodes[n].(running := t.nodes[n].running)
      && forall author ::
           RefuseEarly(t, ContextInput(None, from, n, author, None)) == Some(Illegal(SessionNotRunning)) <==> !running
  {
  }

  // ----- edges and provenance

  /** Only a context edge is removed, and exactly its stamp is set; a restore clears any edge's. */
  lemma EdgeStamps(s: State, id: Id, now: Time)
    requires EdgeKeys(s.edges)
    ensures RemoveEdge(s, id, now) == Refused(NotFound) <==> forall i | 0 <= i < |s.edges| :: s.edges[i].id != id
    ensures RestoreEdge(s, id) == Refused(NotFound) <==> forall i | 0 <= i < |s.edges| :: s.edges[i].id != id
    ensures forall k: nat | k < |s.edges| && s.edges[k].id == id ::
      && (RemoveEdge(s, id, now) == Refused(ProvenanceNotAuthored) <==> s.edges[k].kind.Provenance?)
      && (RemoveEdge(s, id, now).Done? ==>
            && RemoveEdge(s, id, now).value == s.edges[k].(deletedAt := Some(now))
            && RemoveEdge(s, id, now).state == s.(edges := s.edges[k := s.edges[k].(deletedAt := Some(now))]))
      && (RestoreEdge(s, id).Done? ==>
            && RestoreEdge(s, id).value == s.edges[k].(deletedAt := None)
            && RestoreEdge(s, id).state == s.(edges := s.edges[k := s.edges[k].(deletedAt := None)]))
  {
    hide Constraints;
    forall k: nat | k < |s.edges| && s.edges[k].id == id
      ensures EdgeAt(s.edges, id) == k
      ensures Stamp(s.edges, {id}, Some(now)) == s.edges[k := s.edges[k].(deletedAt := Some(now))]
      ensures Stamp(s.edges, {id}, None) == s.edges[k := s.edges[k].(deletedAt := None)]
    {
      OneStamp(s.edges, k, Some(now));
      OneStamp(s.edges, k, None);
    }
    hide EdgeAt, Stamp, EdgeKeys;
  }

  lemma OneStamp(edges: seq<EdgeRow>, k: nat, at: Option<Time>)
    requires EdgeKeys(edges) && k < |edges|
    ensures EdgeAt(edges, edges[k].id) == k
    ensures Stamp(edges, {edges[k].id}, at) == edges[k := edges[k].(deletedAt := at)]
  {
  }

  /** Live wire `i` has the ends of wire `k`, or its place in the order. */
  predicate Displaces(s: State, k: nat, i: nat)
    requires k < |s.edges| && s.edges[k].kind.Context?
  {
    && i != k && LiveInput(s, s.edges[k].to, i)
    && (s.edges[i].from == s.edges[k].from || s.edges[i].kind.ordinal == s.edges[k].kind.ordinal)
  }

  /**
   * An authored wire can always be removed; an edge can be restored unless it is a wire and a live one has its ends, or
   * its place in the order, by now.
   */
  lemma EdgeComesBackIff(s: State, k: nat, now: Time)
    requires Constraints(s) && k < |s.edges|
    ensures RemoveEdge(s, s.edges[k].id, now).Done? <==> s.edges[k].kind.Context?
    ensures RestoreEdge(s, s.edges[k].id).Done? <==>
      s.edges[k].kind.Context? ==> forall i: nat :: !Displaces(s, k, i)
  {
    assert EdgeAt(s.edges, s.edges[k].id) == k;
    StampedAt(s, k, Some(now));
    StampedAt(s, k, None);
  }

  /** Stamping one row meets the constraints unless the row is a live wire now and takes another's ends or place. */
  lemma StampedAt(s: State, k: nat, at: Option<Time>)
    requires Constraints(s) && k < |s.edges|
    ensures Constraints(s.(edges := Stamp(s.edges, {s.edges[k].id}, at))) <==>
      s.edges[k].kind.Context? && at.None? ==> forall i: nat :: !Displaces(s, k, i)
  {
    OneStamp(s.edges, k, at);
    StampedIndexes(s, k, at);
    var edges := s.edges[k := s.edges[k].(deletedAt := at)];
    assert EdgeKeys(edges) && EdgeReferences(s.nodes, edges);
    assert OutputChecks(s.(edges := edges)) <==> OutputChecks(s);
    hide EdgeKeys, EdgeReferences, NodeKeys, ObjectChecks, OutputChecks, LiveIndexes, Stamp, Displaces;
  }

  lemma StampedIndexes(s: State, k: nat, at: Option<Time>)
    requires LiveIndexes(s.edges) && k < |s.edges|
    ensures LiveIndexes(s.edges[k := s.edges[k].(deletedAt := at)]) <==>
      s.edges[k].kind.Context? && at.None? ==> forall i: nat :: !Displaces(s, k, i)
  {
    var edges := s.edges[k := s.edges[k].(deletedAt := at)];
    if s.edges[k].kind.Context? && at.None? {
      if i: nat :| Displaces(s, k, i) {
        assert edges[i].LiveContext() && edges[k].LiveContext();
      } else {
        forall i: nat | i < |edges| && i != k && edges[i].LiveContext() && edges[i].to == edges[k].to
          ensures edges[i].from != edges[k].from && edges[i].kind.ordinal != edges[k].kind.ordinal
        {
          assert !Displaces(s, k, i);
        }
        hide Displaces;
      }
    }
  }

  /** A fact is stated once: stated again it is found, and it is first stated between live nodes only. */
  lemma ProvenanceLaw(s: State, from: NodeId, to: NodeId, relation: ProvenanceKind, freshId: Id)
    ensures var r := RecordProvenance(s, from, to, relation, freshId);
      && (forall k: nat | k < |s.edges| && s.edges[k].kind == Provenance(relation) && s.edges[k].from == from
                          && s.edges[k].to == to ::
            r.Done? && r.state == s && r.value in s.edges && r.value.kind == Provenance(relation)
            && r.value.from == from && r.value.to == to)
      && ((forall k: nat | k < |s.edges| ::
              !(s.edges[k].kind == Provenance(relation) && s.edges[k].from == from && s.edges[k].to == to)) ==>
            && (r == Refused(NotFound) <==> from !in s.nodes || to !in s.nodes)
            && (r == Refused(NodeDeleted) <==>
                  from in s.nodes && to in s.nodes && (s.nodes[from].deletedAt.Some? || s.nodes[to].deletedAt.Some?))
            && (r.Done? ==> r.value == EdgeRow(freshId, Provenance(relation), from, to, None)
                            && r.state == s.(edges := s.edges + [r.value])))
  {
    hide Constraints;
  }

  /** Removing a removed node and restoring a live one do nothing and say so. */
  lemma NothingToDo(s: State, n: NodeId, now: Time)
    requires n in s.nodes
    ensures s.nodes[n].deletedAt.Some? ==> RemoveNode(s, n, now) == Done(s, NodeRemoval({}, false))
    ensures s.nodes[n].deletedAt.None? ==> RestoreNode(s, n) == Done(s, NodeRemoval({}, false))
  {
  }

  // ----- who started a session

  /** A session's row is written once: with a parent on record, itself, or nobody; an unknown parent is refused. */
  lemma LineageLaw(rows: LineageTable, s: SessionId, parent: Option<SessionId>)
    ensures var known := exists i | 0 <= i < |rows| :: rows[i].session == s;
      && (known ==> RecordLineage(rows, s, parent) == Some(rows))
      && (!known && (parent.None? || parent == Some(s) || exists i | 0 <= i < |rows| ::
          Some(rows[i].session) == parent) ==>
            RecordLineage(rows, s, parent) == Some(rows + [LineageRow(s, parent)]))
      && (!known && parent.Some? && parent != Some(s)
          && (forall i | 0 <= i < |rows| :: Some(rows[i].session) != parent) ==>
            RecordLineage(rows, s, parent).None?)
  {
  }

  // ----- records and their nodes

  /** Deleting what a removed card stands for keeps the card from coming back, until the record is restored. */
  lemma RecordKeepsCardDown(s: State, n: NodeId, at: Time)
    requires n in s.nodes && s.nodes[n].deletedAt.Some? && s.nodes[n].role.Content? && s.nodes[n].refId in s.objects
    ensures var gone := SetObjectDeleted(s, s.nodes[n].refId, Some(at));
      && gone.Done? && RestoreNode(gone.state, n) == Refused(SubjectDeleted)
      && var back := SetObjectDeleted(gone.state, s.nodes[n].refId, None);
         back.Done? && RestoreNode(back.state, n) != Refused(SubjectDeleted)
  {
    var gone := SetObjectDeleted(s, s.nodes[n].refId, Some(at)).state;
    RestoreRefusedIff(gone, n);
    RestoreRefusedIff(SetObjectDeleted(gone, s.nodes[n].refId, None).state, n);
    hide RestoreNode;
  }

  lemma CommandKeepsCardDown(s: State, n: NodeId, at: Time)
    requires n in s.nodes && s.nodes[n].deletedAt.Some? && s.nodes[n].role.Command? && s.nodes[n].refId in s.commands
    ensures var gone := DeleteCommand(s, s.nodes[n].refId, at);
      && gone.Done? && RestoreNode(gone.state, n) == Refused(SubjectDeleted)
      && var back := RestoreCommand(gone.state, s.nodes[n].refId);
         back.Done? && RestoreNode(back.state, n) != Refused(SubjectDeleted)
  {
    var gone := DeleteCommand(s, s.nodes[n].refId, at).state;
    RestoreRefusedIff(gone, n);
    RestoreRefusedIff(RestoreCommand(gone, s.nodes[n].refId).state, n);
    hide RestoreNode;
  }

  lemma SessionKeepsCardDown(s: State, n: NodeId, at: Time)
    requires n in s.nodes && s.nodes[n].deletedAt.Some? && s.nodes[n].role.Session?
    ensures RestoreNode(SetSession(s, s.nodes[n].refId, Some(at)), n) == Refused(SubjectDeleted)
    ensures RestoreNode(SetSession(s, s.nodes[n].refId, None), n) != Refused(SubjectDeleted)
  {
    RestoreRefusedIff(SetSession(s, s.nodes[n].refId, Some(at)), n);
    RestoreRefusedIff(SetSession(s, s.nodes[n].refId, None), n);
    hide RestoreNode;
  }

  /** The first deletion's stamp stays; nothing but the stamp is written. */
  lemma ObjectStamp(s: State, id: Id, at: Option<Time>)
    ensures SetObjectDeleted(s, id, at) == Refused(NotFound) <==> id !in s.objects
    ensures id in s.objects ==> var t := SetObjectDeleted(s, id, at).state;
      && t == s.(objects := t.objects) && id in t.objects && t.objects == s.objects[id := t.objects[id]]
      && t.objects[id].scope == s.objects[id].scope && t.objects[id].workstream == s.objects[id].workstream
      && t.objects[id].deletedAt == (if at.Some? && s.objects[id].deletedAt.Some? then s.objects[id].deletedAt else at)
  {
  }

  // ----- outputs: promised, bound, broken, mended

  /** Nothing about the object rule stands in an output's way: no object goes by its name. */
  predicate IsOutput(s: State, out: Id) {
    out in s.outputs && out !in s.objects
  }

  /** An unpublished placeholder may not leave its workstream; publishing it lets it go anywhere. */
  lemma PublishingOpens(s: State, out: Id, now: Time, target: Option<Id>)
    requires OutputChecks(s) && IsOutput(s, out) && s.outputs[out].boundObject.None? && s.outputs[out].brokenAt.None?
    ensures s.outputs[out].publishedAt.None? ==>
      (CheckSource(s, out, target) == Some(UnpublishedOutput) <==>
        target != Some(s.commands[s.outputs[out].command].workstream))
    ensures var r := Publish(s, out, now);
      && r.Done? && OutputChecks(r.state) && CheckSource(r.state, out, target).None?
      && r.state == s.(outputs := r.state.outputs) && out in r.state.outputs
      && r.state.outputs == s.outputs[out := s.outputs[out].(publishedAt := Some(now))]
  {
  }

  lemma PublishRefused(s: State, out: Id, now: Time)
    ensures Publish(s, out, now) == Refused(NotFound) <==> out !in s.outputs
    ensures Publish(s, out, now) == Refused(AlreadyBound) <==> out in s.outputs && s.outputs[out].boundObject.Some?
  {
  }

  /** Deleting a command breaks exactly its unbound placeholders, and a wire from one is refused for that. */
  lemma DeletingBreaks(s: State, command: Id, now: Time, o: Id, input: ContextInput)
    requires Constraints(s) && Rooted(s.lineage) && command in s.commands && IsOutput(s, o)
    ensures var r := DeleteCommand(s, command, now);
      && r.Done? && OutputChecks(r.state) && r.state.outputs.Keys == s.outputs.Keys
      && r.state == s.(outputs := r.state.outputs, commands := r.state.commands)
      && r.state.commands == s.commands[command := s.commands[command].(deletedAt := Some(now))]
      && r.state.outputs[o] == s.outputs[o].(brokenAt := r.state.outputs[o].brokenAt)
      && (r.state.outputs[o].brokenAt ==
          if s.outputs[o].command == command && s.outputs[o].boundObject.None? then Some(now)
              else s.outputs[o].brokenAt)
      && (s.outputs[o].command == command && s.outputs[o].boundObject.None?
          && Plain(s, input) && s.nodes[input.from].refId == o ==>
            RefuseEarly(r.state, input) == Some(BrokenOutput))
  {
  }

  /** Both ends live and of the right kind: whatever is wrong with the wire, it is not its shape. */
  predicate Plain(s: State, input: ContextInput) {
    && input.from in s.nodes && input.to in s.nodes && input.from != input.to
    && s.nodes[input.from].deletedAt.None? && s.nodes[input.to].deletedAt.None?
    && s.nodes[input.from].role.Content? && s.nodes[input.to].role.Command?
  }

  /** Restoring a command mends its outputs, and touches no other row. */
  lemma RestoringMends(s: State, command: Id)
    requires command in s.commands
    ensures var r := RestoreCommand(s, command);
      && r.Done? && r.state == s.(outputs := r.state.outputs, commands := r.state.commands)
      && r.state.commands == s.commands[command := s.commands[command].(deletedAt := None)]
      && r.state.outputs.Keys == s.outputs.Keys
      && forall o | o in s.outputs ::
           && r.state.outputs[o] == s.outputs[o].(brokenAt := r.state.outputs[o].brokenAt)
           && r.state.outputs[o].brokenAt == (if s.outputs[o].command == command then None else s.outputs[o].brokenAt)
  {
  }

  /**
   * Restored right after its deletion, a command and its outputs are as they were, exactly if none of them was down
   * before.
   */
  lemma CommandUndoIff(s: State, command: Id, now: Time)
    requires command in s.commands
    ensures DeleteCommand(s, command, now).Done?
    ensures RestoreCommand(DeleteCommand(s, command, now).state, command) == Done(s, ()) <==>
      && s.commands[command].deletedAt.None?
      && forall o | o in s.outputs && s.outputs[o].command == command :: s.outputs[o].brokenAt.None?
  {
    var gone := DeleteCommand(s, command, now).state;
    var back := RestoreCommand(gone, command).state;
    RestoringMends(gone, command);
    OutputsAfterDeletion(s, command, now);
    hide DeleteCommand, RestoreCommand;
    assert back.commands[command] == s.commands[command].(deletedAt := None);
    assert back == s.(outputs := back.outputs, commands := back.commands);
    if s.commands[command].deletedAt.None?
       && forall o | o in s.outputs && s.outputs[o].command == command :: s.outputs[o].brokenAt.None? {
      assert back.commands == s.commands && back.outputs == s.outputs;
    }
    if o :| o in s.outputs && s.outputs[o].command == command && s.outputs[o].brokenAt.Some? {
      assert back.outputs[o] != s.outputs[o];
    }
  }

  lemma OutputsAfterDeletion(s: State, command: Id, now: Time)
    requires command in s.commands
    ensures var t := DeleteCommand(s, command, now).state;
      && t == s.(outputs := t.outputs, commands := t.commands) && t.outputs.Keys == s.outputs.Keys
      && t.commands == s.commands[command := s.commands[command].(deletedAt := Some(now))]
      && forall o | o in s.outputs ::
           && t.outputs[o] == s.outputs[o].(brokenAt := t.outputs[o].brokenAt)
           && t.outputs[o].brokenAt == (if s.outputs[o].command == command && s.outputs[o].boundObject.None?
                                        then Some(now) else s.outputs[o].brokenAt)
  {
  }

  /** Promotion makes an object the world's: nothing keeps it home any more. */
  lemma PromotionOpens(s: State, id: Id, target: Option<Id>)
    requires OutputChecks(s)
    ensures Promote(s, id) == Refused(NotFound) <==> id !in s.objects
    ensures id in s.objects ==> var t := Promote(s, id).state;
      && t == s.(objects := t.objects) && id in t.objects && t.objects == s.objects[id := t.objects[id]]
      && t.objects[id].scope.World? && t.objects[id].deletedAt == s.objects[id].deletedAt
      && (s.objects[id].scope.Local? ==> t.objects[id].workstream.None?)
      && OutputChecks(t) && CheckSource(t, id, target) != Some(LocalObject)
    ensures id in s.objects && s.objects[id].scope.Local? && s.objects[id].workstream.Some? ==>
      (CheckSource(s, id, target) == Some(LocalObject) <==> s.objects[id].workstream != target)
  {
  }

  /**
   * Binding lands exactly for an object on record and an output that is not broken; a published one takes it to the
   * world.
   */
  lemma BindLaw(s: State, out: Id, obj: Id)
    requires Constraints(s)
    ensures BindOutput(s, out, obj) == Refused(NotFound) <==> out !in s.outputs
    ensures BindOutput(s, out, obj).Done? <==>
      out in s.outputs && obj in s.objects && s.outputs[out].brokenAt.None?
    ensures BindOutput(s, out, obj).Done? ==> var t := BindOutput(s, out, obj).state;
      && t == s.(outputs := t.outputs, objects := t.objects)
      && t.outputs == s.outputs[out := s.outputs[out].(boundObject := Some(obj))]
      && obj in t.objects && t.objects == s.objects[obj := t.objects[obj]]
      && (s.outputs[out].publishedAt.Some? ==> t.objects[obj].scope.World?)
      && (s.outputs[out].publishedAt.None? ==> t.objects[obj] == s.objects[obj])
  {
    hide LiveIndexes, EdgeReferences, EdgeKeys, NodeKeys;
    if out in s.outputs {
      var bound := s.(outputs := s.outputs[out := s.outputs[out].(boundObject := Some(obj))]);
      assert OutputChecks(bound) <==> obj in s.objects && s.outputs[out].brokenAt.None? by {
        assert out in bound.outputs && bound.outputs[out].boundObject == Some(obj);
        assert bound.outputs[out].brokenAt == s.outputs[out].brokenAt;
      }
    }
  }

  /** A first write decides an object's scope for good: local to the workstream it names, or the world's. */
  lemma WriteObjectLaw(s: State, id: Id, workstream: Option<Id>)
    ensures id in s.objects ==> WriteObject(s, id, workstream) == s
    ensures id !in s.objects ==> var t := WriteObject(s, id, workstream);
      && t == s.(objects := t.objects) && id in t.objects && t.objects == s.objects[id := t.objects[id]]
      && t.objects[id].workstream == workstream && t.objects[id].deletedAt.None?
      && (t.objects[id].scope.Local? <==> workstream.Some?)
  {
  }

  // ----- a new command with everything it comes with

  /** The wire for one item of context: live, from that item, under its id, by that author. */
  predicate Wires(row: EdgeRow, to: NodeId, author: Author, item: (NodeId, Id)) {
    && row.kind.Context? && row.deletedAt.None? && row.kind.author == author
    && row.from == item.0 && row.to == to && row.id == item.1
  }

  /** Row `m` takes a place behind every live wire into the node that is before it in the table. */
  predicate Behind(t: State, to: NodeId, m: nat) {
    LiveInput(t, to, m) && forall i: nat | i < m && LiveInput(t, to, i) ::
      t.edges[i].kind.ordinal < t.edges[m].kind.ordinal
  }

  /**
   * The `k` rows behind the first `n` wire the first `k` items of context, in their order, and each takes its place
   * behind every wire into the node that was there before it.
   */
  ghost predicate AllWired(t: State, n: nat, to: NodeId, author: Author, context: seq<(NodeId, Id)>, k: nat)
    requires k <= |context|
  {
    && |t.edges| == n + k
    && (forall m: nat | n <= m < n + k :: Wires(t.edges[m], to, author, context[m - n]))
    && (forall m: nat | n <= m < n + k :: Behind(t, to, m))
  }

  lemma {:induction false} WireAllWires(s: State, to: NodeId, author: Author, context: seq<(NodeId, Id)>, k: nat)
    requires Constraints(s) && Rooted(s.lineage) && k <= |context| && WireAll(s, to, author, context, k).Done?
    ensures var t := WireAll(s, to, author, context, k).state;
      && AllWired(t, |s.edges|, to, author, context, k)
      && t == s.(edges := t.edges) && t.edges[..|s.edges|] == s.edges
  {
    hide AddContextEdge, Constraints, Rooted, Lawful, Wires;
    if k > 0 {
      LastWire(s, to, author, context, k);
      hide WireAll, AllWired;
      WireAllWires(s, to, author, context, k - 1);
      var before, t := WireAll(s, to, author, context, k - 1).state, WireAll(s, to, author, context, k).state;
      OneMoreWired(before, |s.edges|, t, to, author, context, k);
      assert t.edges[..|s.edges|] == t.edges[..|before.edges|][..|s.edges|];
    }
  }

  lemma OneMoreWired(before: State, n: nat, t: State, to: NodeId, author: Author, context: seq<(NodeId, Id)>, k: nat)
    requires 0 < k <= |context| && AllWired(before, n, to, author, context, k - 1)
    requires |t.edges| == |before.edges| + 1 && t.edges[..|before.edges|] == before.edges
    requires Wires(t.edges[|before.edges|], to, author, context[k - 1])
    requires forall i: nat | LiveInput(before, to, i) ::
      before.edges[i].kind.ordinal < t.edges[|before.edges|].kind.ordinal
    ensures AllWired(t, n, to, author, context, k) && n <= |before.edges|
  {
    var last := |before.edges|;
    assert forall i | 0 <= i < last :: t.edges[i] == t.edges[..last][i];
    assert forall i: nat | i < last :: LiveInput(t, to, i) <==> LiveInput(before, to, i);
    forall m: nat | n <= m < n + k
      ensures Wires(t.edges[m], to, author, context[m - n]) && Behind(t, to, m)
    {
      if m < last {
        assert Wires(before.edges[m], to, author, context[m - n]) && Behind(before, to, m);
      }
    }
  }

  lemma LastWire(s: State, to: NodeId, author: Author, context: seq<(NodeId, Id)>, k: nat)
    requires Constraints(s) && Rooted(s.lineage) && 0 < k <= |context| && WireAll(s, to, author, context, k).Done?
    ensures WireAll(s, to, author, context, k - 1).Done?
    ensures var before, t := WireAll(s, to, author, context, k - 1).state, WireAll(s, to, author, context, k).state;
      && t == before.(edges := t.edges) && |t.edges| == |before.edges| + 1 && t.edges[..|before.edges|] == before.edges
      && Wires(t.edges[|before.edges|], to, author, context[k - 1])
      && forall i: nat | LiveInput(before, to, i) ::
           before.edges[i].kind.ordinal < t.edges[|before.edges|].kind.ordinal
  {
    var before := WireAll(s, to, author, context, k - 1).state;
    var input, freshId := ContextInput(None, context[k - 1].0, to, author, None), context[k - 1].1;
    var t := WireAll(s, to, author, context, k).state;
    assert t == AddContextEdge(before, input, freshId).state;
    hide WireAll, Rooted;
    WireLands(before, input, freshId);
    hide AddContextEdge, Constraints;
    assert t.edges[|before.edges|].from == input.from;
  }

  /**
   * An instantiation that lands has written the command, its node, its placeholder, still a mere promise, with the node
   * and the provenance that name the command behind it, and last a wire for each item of its context: its inputs are
   * in the order they were given.
   */
  lemma InstantiateLaw(s: State, g: Instantiation)
    requires Constraints(s) && Rooted(s.lineage) && Instantiate(s, g).Done?
    ensures var t, node := Instantiate(s, g).state, Instantiate(s, g).value;
      && g.command !in s.commands && t.commands == s.commands[g.command := CommandRow(g.workstream, None)]
      && node in t.nodes && t.nodes[node].role.Command? && t.nodes[node].refId == g.command
      && t.nodes[node].deletedAt.None?
      && (g.outcome.None? ==> t.outputs == s.outputs)
      && (g.outcome.Some? ==>
            && g.outcome.value.output !in s.outputs
            && t.outputs == s.outputs[g.outcome.value.output := OutputRow(g.command, None, None, None)]
            && Declares(t, node, g.outcome.value.output))
      && |t.edges| >= |g.context|
      && AllWired(t, |t.edges| - |g.context|, node, g.author, g.context, |g.context|)
  {
    var declared, node := BeforeWires(s, g);
    WireAllWires(declared, node, g.author, g.context, |g.context|);
    var t := Instantiate(s, g).state;
    hide Instantiate, WireAll, Constraints, Rooted, AllWired, Declares;
    assert |t.edges| - |g.context| == |declared.edges| by {
      assert AllWired(t, |declared.edges|, node, g.author, g.context, |g.context|);
      WiredCount(t, |declared.edges|, node, g.author, g.context);
    }
    if g.outcome.Some? {
      DeclaresOn(declared, t, node, g.outcome.value.output);
    }
  }

  lemma WiredCount(t: State, n: nat, to: NodeId, author: Author, context: seq<(NodeId, Id)>)
    requires AllWired(t, n, to, author, context, |context|)
    ensures |t.edges| == n + |context|
  {
  }

  lemma DeclaresOn(s: State, t: State, node: NodeId, out: Id)
    requires Declares(s, node, out) && t.nodes == s.nodes
    requires |s.edges| <= |t.edges| && t.edges[..|s.edges|] == s.edges
    ensures Declares(t, node, out)
  {
    assert forall i | 0 <= i < |s.edges| :: t.edges[i] == t.edges[..|s.edges|][i];
    var i :| 0 <= i < |s.edges| && s.edges[i].kind == Provenance(CommandDeclaresOutput) && s.edges[i].from == node
      && s.edges[i].to in s.nodes && s.nodes[s.edges[i].to].role.Content? && s.nodes[s.edges[i].to].refId == out;
    assert t.edges[i] == s.edges[i];
  }

  /** The tables an instantiation has written when it comes to wiring its context. */
  lemma BeforeWires(s: State, g: Instantiation) returns (t: State, node: NodeId)
    requires Constraints(s) && Rooted(s.lineage) && Instantiate(s, g).Done?
    ensures Constraints(t) && Rooted(t.lineage)
    ensures WireAll(t, node, g.author, g.context, |g.context|).Done?
    ensures Instantiate(s, g) == Done(WireAll(t, node, g.author, g.context, |g.context|).state, node)
    ensures g.command !in s.commands && t.commands == s.commands[g.command := CommandRow(g.workstream, None)]
    ensures node in t.nodes && t.nodes[node].role.Command? && t.nodes[node].refId == g.command
        && t.nodes[node].deletedAt.None?
    ensures g.outcome.None? ==> t.outputs == s.outputs
    ensures g.outcome.Some? ==>
      && g.outcome.value.output !in s.outputs
      && t.outputs == s.outputs[g.outcome.value.output := OutputRow(g.command, None, None, None)]
      && Declares(t, node, g.outcome.value.output)
  {
    var s1 := InsertCommand(s, g.command, g.workstream).state;
    var p := Place(s1, Command, g.command, Some(g.workstream), false, g.node);
    PlacedNode(s1, Command, g.command, Some(g.workstream), g.node);
    node := p.value;
    t := if g.outcome.Some? then DeclareOutput(p.state, g.command, node, g.outcome.value).state else p.state;
    if g.outcome.Some? {
      DeclaredRows(p.state, g.command, node, g.outcome.value);
    }
    hide Place, DeclareOutput, WireAll, Constraints, Rooted, Declares;
  }

  /** A provenance row from the command's node to a content node that stands for the output. */
  ghost predicate Declares(t: State, node: NodeId, out: Id) {
    exists i | 0 <= i < |t.edges| ::
      && t.edges[i].kind == Provenance(CommandDeclaresOutput) && t.edges[i].from == node
      && t.edges[i].to in t.nodes && t.nodes[t.edges[i].to].role.Content? && t.nodes[t.edges[i].to].refId == out
  }

  lemma PlacedNode(s: State, role: NodeRole, refId: Id, workstream: Option<Id>, id: NodeId)
    requires Constraints(s) && Place(s, role, refId, workstream, false, id).Done?
    ensures var t, n := Place(s, role, refId, workstream, false, id).state,
        Place(s, role, refId, workstream, false, id).value;
      && t == s.(nodes := t.nodes) && n in t.nodes && t.nodes[n].role == role && t.nodes[n].refId == refId
      && t.nodes[n].deletedAt.None? && forall m | m in s.nodes :: m in t.nodes && t.nodes[m] == s.nodes[m]
  {
  }

  lemma DeclaredRows(s: State, command: Id, node: NodeId, d: Declared)
    requires Constraints(s) && node in s.nodes && DeclareOutput(s, command, node, d).Done?
    ensures var t := DeclareOutput(s, command, node, d).state;
      && t.commands == s.commands && node in t.nodes && t.nodes[node] == s.nodes[node]
      && d.output !in s.outputs && t.outputs == s.outputs[d.output := OutputRow(command, None, None, None)]
      && Declares(t, node, d.output)
  {
    var s1 := InsertOutput(s, d.output, command).state;
    var placed := Place(s1, Content, d.output, Some(s1.commands[command].workstream), false, d.node);
    PlacedNode(s1, Content, d.output, Some(s1.commands[command].workstream), d.node);
    ProvenanceLaw(placed.state, node, placed.value, CommandDeclaresOutput, d.edge);
    var recorded := RecordProvenance(placed.state, node, placed.value, CommandDeclaresOutput, d.edge);
    var k := ProvenanceAt(placed.state.edges, node, placed.value, CommandDeclaresOutput);
    assert recorded.state.edges[k].kind == Provenance(CommandDeclaresOutput);
    hide Place, Constraints;
  }
}
