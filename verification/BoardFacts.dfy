/**
 * What was checked once, when a wire was authored or a node placed, is true of it for ever: legal shape, scope, and no
 * session authoring into its own chain. Restores and late provenance are among the gestures, and need no condition.
 */
module BoardFacts {
  import opened Wrappers
  import opened Edges
  import opened Lineage
  import opened Board
  import opened BoardTopology
  import opened BoardScope
  import opened BoardOrder
  import opened Gestures

  ghost predicate FactsHold(s: State) {
    Wellformed(s) && WellWired(s) && ScopeSafe(s) && ChainSafe(s)
  }

  // ----- frames

  /** Nothing a gesture leaves in place loses its scope, its author rule or its shape. */
  lemma FactsFrame(s: State, t: State)
    requires FactsHold(s) && Constraints(t) && Extends(s, t) && |s.edges| == |t.edges| && t.lineage == s.lineage
        && Loosens(s, t)
    requires forall n | n in t.nodes && n !in s.nodes && t.nodes[n].role.Content? && t.nodes[n].refId in t.objects ::
               MayCross(t.objects[t.nodes[n].refId], t.nodes[n].workstream)
    ensures FactsHold(t)
  {
    ScopeFrame(s, t);
    forall i | 0 <= i < |t.edges|
      ensures SameFact(s.edges[i], t.edges[i])
    {
    }
  }

  predicate SameRecords(s: State, t: State) {
    t.objects == s.objects && t.outputs == s.outputs && t.commands == s.commands && t.lineage == s.lineage
  }

  lemma SameRecordsLoosen(s: State, t: State)
    requires Constraints(s) && OutputChecks(t) && SameRecords(s, t)
    ensures Loosens(s, t)
  {
  }

  /** Rows re-stamped or renumbered over the same records keep their facts. */
  lemma RestampedFacts(s: State, t: State)
    requires FactsHold(s) && Constraints(t) && Extends(s, t) && |s.edges| == |t.edges| && SameNodes(s, t)
        && SameRecords(s, t)
    ensures FactsHold(t)
  {
    SameRecordsLoosen(s, t);
    FactsFrame(s, t);
  }

  /** The same tables but for records that only gained reach. */
  lemma LoosenedFacts(s: State, t: State)
    requires FactsHold(s) && Constraints(t) && t.edges == s.edges && t.nodes == s.nodes && t.lineage == s.lineage
        && Loosens(s, t)
    ensures FactsHold(t)
  {
    FactsFrame(s, t);
  }

  lemma NewRowKeepsFacts(s: State, row: EdgeRow)
    requires FactsHold(s) && Constraints(s.(edges := s.edges + [row])) && row.from in s.nodes && row.to in s.nodes
    requires row.kind.Context? ==>
               && s.nodes[row.from].role.Content? && (s.nodes[row.to].role.Command? || s.nodes[row.to].role.Session?)
               && MayReach(s, s.nodes[row.from].refId, s.nodes[row.to].workstream)
               && MayAuthor(s.lineage, row.kind.author, TargetSession(s, row))
    ensures FactsHold(s.(edges := s.edges + [row]))
  {
    var t := s.(edges := s.edges + [row]);
    forall i | 0 <= i < |t.edges|
      ensures t.edges[i] == if i < |s.edges| then s.edges[i] else row
    {
    }
    forall o | o in s.outputs
      ensures Crossable(t, o) == Crossable(s, o)
    {
    }
  }

  // ----- one lemma per gesture

  lemma PlaceKeepsFacts(s: State, role: NodeRole, refId: Id, workstream: Option<Id>, running: bool, node: NodeId)
    requires FactsHold(s)
    ensures FactsHold(Settle(s, Place(s, role, refId, workstream, running, node)))
  {
    var t := Settle(s, Place(s, role, refId, workstream, running, node));
    SameRecordsLoosen(s, t);
    FactsFrame(s, t);
  }

  lemma SetRunningKeepsFacts(s: State, n: NodeId, running: bool)
    requires FactsHold(s)
    ensures FactsHold(SetRunning(s, n, running))
  {
    SetRunningKeepsConstraints(s, n, running);
    var t := SetRunning(s, n, running);
    assert Constraints(s) && SameNodes(s, t) && SameRecords(s, t) && t.edges == s.edges;
    hide FactsHold, Constraints, SetRunning;
    assert forall i | 0 <= i < |s.edges| :: SameFact(s.edges[i], t.edges[i]);
    RestampedFacts(s, t);
  }

  lemma AddContextEdgeKeepsFacts(s: State, input: ContextInput, freshId: Id)
    requires FactsHold(s)
    ensures FactsHold(Settle(s, AddContextEdge(s, input, freshId)))
  {
    var r := AddContextEdge(s, input, freshId);
    if r.Done? && r.state != s {
      CheckSourceIff(s, s.nodes[input.from].refId, s.nodes[input.to].workstream);
      NewRowKeepsFacts(s, NewWire(s, input, freshId));
    }
  }

  lemma RecordProvenanceKeepsFacts(s: State, from: NodeId, to: NodeId, relation: ProvenanceKind, freshId: Id)
    requires FactsHold(s)
    ensures FactsHold(Settle(s, RecordProvenance(s, from, to, relation, freshId)))
  {
    var r := RecordProvenance(s, from, to, relation, freshId);
    if r.Done? && r.state != s {
      NewRowKeepsFacts(s, EdgeRow(freshId, Provenance(relation), from, to, None));
    }
  }

  lemma ReorderKeepsFacts(s: State, n: NodeId, ids: seq<Id>)
    requires FactsHold(s)
    ensures FactsHold(Settle(s, ReorderContextInputs(s, n, ids)))
  {
    var r := ReorderContextInputs(s, n, ids);
    if r.Done? {
      ReorderKeepsConstraints(s, n, ids);
      ReorderOutcome(s, n, ids);
      forall i: nat | i < |s.edges|
        ensures SameFact(s.edges[i], r.state.edges[i])
      {
        ReorderKeepsRow(s, n, ids, i);
      }
      RestampedFacts(s, r.state);
    }
  }

  lemma RemoveEdgeKeepsFacts(s: State, id: Id, now: Time)
    requires FactsHold(s) && RemoveEdge(s, id, now).Done?
    ensures FactsHold(RemoveEdge(s, id, now).state)
  {
    StampExtends(s, RemoveEdge(s, id, now).state, {id}, Some(now));
    RestampedFacts(s, RemoveEdge(s, id, now).state);
  }

  lemma RemoveNodeKeepsFacts(s: State, n: NodeId, now: Time)
    requires FactsHold(s) && RemoveNode(s, n, now).Done?
    ensures FactsHold(RemoveNode(s, n, now).state)
  {
    RemoveNodeExtends(s, n, now);
    var t := RemoveNode(s, n, now).state;
    assert Constraints(t) && SameNodes(s, t) && SameRecords(s, t);
    hide RemoveNode, FactsHold, Constraints;
    RestampedFacts(s, t);
  }

  /** Neither restore can take a wire where it may not go: what it revives was checked when it was drawn. */
  lemma RestoreEdgeKeepsFacts(s: State, id: Id)
    requires FactsHold(s) && RestoreEdge(s, id).Done?
    ensures FactsHold(RestoreEdge(s, id).state)
  {
    StampExtends(s, RestoreEdge(s, id).state, {id}, None);
    RestampedFacts(s, RestoreEdge(s, id).state);
  }

  lemma RestoreNodeKeepsFacts(s: State, n: NodeId)
    requires FactsHold(s) && RestoreNode(s, n).Done?
    ensures FactsHold(RestoreNode(s, n).state)
  {
    RestoreNodeExtends(s, n);
    var t := RestoreNode(s, n).state;
    assert Constraints(t) && SameNodes(s, t) && SameRecords(s, t);
    hide RestoreNode, FactsHold, Constraints;
    RestampedFacts(s, t);
  }

  /** An object row may widen its scope or change its removal stamp. */
  lemma ObjectRowKeepsFacts(s: State, t: State, id: Id)
    requires FactsHold(s) && id in s.objects && id in t.objects && t == s.(objects := s.objects[id := t.objects[id]])
    requires t.objects[id].scope.Local? <==> t.objects[id].workstream.Some?
    requires t.objects[id].workstream.None?
        || (t.objects[id].workstream == s.objects[id].workstream && t.objects[id].scope == s.objects[id].scope)
    ensures FactsHold(t)
  {
    assert Constraints(t);
    forall o | o in s.outputs
      ensures Crossable(s, o) ==> Crossable(t, o)
    {
    }
    LoosenedFacts(s, t);
  }

  /** Other objects may be written as before; a new local one only if what already stands for it stayed at home. */
  ghost predicate ObjectPermitted(s: State, id: Id, workstream: Option<Id>)
    requires EdgeReferences(s.nodes, s.edges)
  {
    id in s.objects || workstream.None? || KeptIn(s, id, workstream.value)
  }

  lemma WriteObjectFactsIff(s: State, id: Id, workstream: Option<Id>)
    requires FactsHold(s)
    ensures FactsHold(WriteObject(s, id, workstream)) <==> ObjectPermitted(s, id, workstream)
  {
    if id !in s.objects {
      WriteObjectScopeIff(s, id, workstream);
    }
  }

  lemma ObjectsKeepFacts(s: State, g: Gesture)
    requires FactsHold(s) && (g.GPromote? || g.GSetObjectDeleted? || g.GSetSession?)
    ensures FactsHold(Next(s, g))
  {
    match g
    case GPromote(obj) =>
      if obj in s.objects && Promote(s, obj).state != s {
        ObjectRowKeepsFacts(s, Promote(s, obj).state, obj);
      }
    case GSetObjectDeleted(obj, at) =>
      if obj in s.objects && SetObjectDeleted(s, obj, at).state != s {
        ObjectRowKeepsFacts(s, SetObjectDeleted(s, obj, at).state, obj);
      }
    case GSetSession(session, at) =>
      var t := SetSession(s, session, at);
      SameRecordsLoosen(s, t);
      LoosenedFacts(s, t);
  }

  /** An output may be published, break or mend; its command's row may change only its stamp. */
  lemma OutputRowsKeepFacts(s: State, t: State)
    requires FactsHold(s) && t == s.(outputs := t.outputs, commands := t.commands) && OutputChecks(t)
    requires t.outputs.Keys == s.outputs.Keys && t.commands.Keys == s.commands.Keys
    requires forall c | c in s.commands :: t.commands[c].workstream == s.commands[c].workstream
    requires forall o | o in s.outputs ::
               && t.outputs[o].command == s.outputs[o].command && t.outputs[o].boundObject == s.outputs[o].boundObject
               && (s.outputs[o].publishedAt.Some? ==> t.outputs[o].publishedAt.Some?)
    ensures FactsHold(t)
  {
    forall o | o in s.outputs
      ensures Crossable(s, o) ==> Crossable(t, o)
    {
    }
    LoosenedFacts(s, t);
  }

  lemma PublishKeepsFacts(s: State, out: Id, now: Time)
    requires FactsHold(s) && Publish(s, out, now).Done?
    ensures FactsHold(Publish(s, out, now).state)
  {
    OutputRowsKeepFacts(s, Publish(s, out, now).state);
  }

  lemma DeleteCommandKeepsFacts(s: State, command: Id, now: Time)
    requires FactsHold(s) && DeleteCommand(s, command, now).Done?
    ensures FactsHold(DeleteCommand(s, command, now).state)
  {
    OutputRowsKeepFacts(s, DeleteCommand(s, command, now).state);
  }

  lemma RestoreCommandKeepsFacts(s: State, command: Id)
    requires FactsHold(s) && RestoreCommand(s, command).Done?
    ensures FactsHold(RestoreCommand(s, command).state)
  {
    OutputRowsKeepFacts(s, RestoreCommand(s, command).state);
  }

  ghost predicate BindPermitted(s: State, out: Id, obj: Id)
    requires OutputChecks(s) && EdgeReferences(s.nodes, s.edges) && out in s.outputs
  {
    s.outputs[out].publishedAt.Some? || (obj in s.objects && s.objects[obj].scope.World?) || !CarriedAbroad(s, out)
  }

  lemma BindOutputFactsIff(s: State, out: Id, obj: Id)
    requires FactsHold(s)
    ensures FactsHold(Settle(s, BindOutput(s, out, obj))) <==>
        (BindOutput(s, out, obj).Done? ==> BindPermitted(s, out, obj))
  {
    if BindOutput(s, out, obj).Done? {
      BindOutputScopeIff(s, out, obj);
    }
  }

  ghost predicate LineagePermitted(s: State, id: SessionId, parent: Option<SessionId>)
    requires Wellformed(s)
  {
    Recorded(s.lineage, id) ||
    (parent != Some(id) &&
     (parent.None? || forall i, up | 0 <= i < |s.edges| && Joins(s, s.edges[i], id, up) ::
         !Below(s.lineage, parent.value, up)))
  }

  lemma RecordLineageFactsIff(s: State, id: SessionId, parent: Option<SessionId>)
    requires FactsHold(s)
    ensures FactsHold(Settle(s, RecordSessionLineage(s, id, parent))) <==>
            (RecordSessionLineage(s, id, parent).Done? ==> LineagePermitted(s, id, parent))
  {
    var r := RecordSessionLineage(s, id, parent);
    if r.Done? && !Recorded(s.lineage, id) {
      RecordKeepsRooted(s.lineage, id, parent);
      forall o | o in s.outputs
        ensures Crossable(r.state, o) == Crossable(s, o)
      {
      }
      if parent != Some(id) {
        RecordLineageChainIff(s, id, parent);
      }
    }
  }

  // ----- instantiation

  /** Whatever is already wired from a node naming this output goes to one workstream only. */
  ghost predicate HomeBound(s: State, out: Id, workstream: Id)
    requires EdgeReferences(s.nodes, s.edges)
  {
    forall i | 0 <= i < |s.edges| && s.edges[i].kind.Context? && s.nodes[s.edges[i].from].refId == out ::
      s.nodes[s.edges[i].to].workstream == Some(workstream)
  }

  lemma InsertCommandKeepsFacts(s: State, command: Id, workstream: Id)
    requires FactsHold(s) && InsertCommand(s, command, workstream).Done?
    ensures FactsHold(InsertCommand(s, command, workstream).state)
  {
    var t := InsertCommand(s, command, workstream).state;
    forall o | o in s.outputs
      ensures Crossable(t, o) == Crossable(s, o)
    {
    }
    LoosenedFacts(s, t);
  }

  /**
   * A new placeholder is neither published nor bound, so wires that already use its name must stay with its command.
   */
  lemma InsertOutputFactsIff(s: State, out: Id, command: Id)
    requires FactsHold(s) && InsertOutput(s, out, command).Done?
    ensures FactsHold(InsertOutput(s, out, command).state) <==> HomeBound(s, out, s.commands[command].workstream)
  {
    var t := InsertOutput(s, out, command).state;
    forall o | o in s.outputs
      ensures Crossable(t, o) == Crossable(s, o)
    {
    }
    forall i | 0 <= i < |s.edges| && s.edges[i].kind.Context?
      ensures var refId, target := s.nodes[s.edges[i].from].refId, s.nodes[s.edges[i].to].workstream;
              MayReach(t, refId, target) <==> (refId != out || target == Some(s.commands[command].workstream))
    {
      assert MayReach(s, s.nodes[s.edges[i].from].refId, s.nodes[s.edges[i].to].workstream);
    }
    if FactsHold(t) {
      forall i | 0 <= i < |s.edges| && s.edges[i].kind.Context? && s.nodes[s.edges[i].from].refId == out
        ensures s.nodes[s.edges[i].to].workstream == Some(s.commands[command].workstream)
      {
        assert MayReach(t, t.nodes[t.edges[i].from].refId, t.nodes[t.edges[i].to].workstream);
      }
    }
  }

  /** The same records, every node as it was, and rows only added at the end. */
  ghost predicate Grown(s: State, t: State) {
    && t.objects == s.objects && t.outputs == s.outputs && t.commands == s.commands && t.lineage == s.lineage
    && (forall n | n in s.nodes :: n in t.nodes && t.nodes[n] == s.nodes[n])
    && |s.edges| <= |t.edges| && (forall i | 0 <= i < |s.edges| :: t.edges[i] == s.edges[i])
  }

  lemma {:induction false} WireAllGrows(s: State, to: NodeId, author: Author, context: seq<(NodeId, Id)>, k: nat)
    requires Wellformed(s) && k <= |context| && WireAll(s, to, author, context, k).Done?
    ensures Grown(s, WireAll(s, to, author, context, k).state)
  {
    if k > 0 {
      WireAllGrows(s, to, author, context, k - 1);
      var s1 := WireAll(s, to, author, context, k - 1).state;
      AddContextEdgeGrows(s1, ContextInput(None, context[k - 1].0, to, author, None), context[k - 1].1);
    }
  }

  lemma AddContextEdgeGrows(s: State, input: ContextInput, freshId: Id)
    requires Wellformed(s) && AddContextEdge(s, input, freshId).Done?
    ensures Grown(s, AddContextEdge(s, input, freshId).state)
  {
    hide RefuseWire, NewWire;
  }

  /** What lies out of scope stays so while the board only grows. */
  lemma BreachStays(s: State, t: State)
    requires Constraints(s) && Constraints(t) && Grown(s, t) && ScopeSafe(t)
    ensures ScopeSafe(s)
  {
    forall o | o in s.outputs
      ensures Crossable(t, o) == Crossable(s, o)
    {
    }
    forall i | 0 <= i < |s.edges| && s.edges[i].kind.Context?
      ensures MayReach(s, s.nodes[s.edges[i].from].refId, s.nodes[s.edges[i].to].workstream)
    {
      assert t.edges[i] == s.edges[i];
      assert MayReach(t, t.nodes[t.edges[i].from].refId, t.nodes[t.edges[i].to].workstream);
    }
  }

  lemma {:induction false} WireAllKeepsFacts(s: State, to: NodeId, author: Author, context: seq<(NodeId, Id)>, k: nat)
    requires FactsHold(s) && k <= |context| && WireAll(s, to, author, context, k).Done?
    ensures FactsHold(WireAll(s, to, author, context, k).state)
  {
    hide WellWired, ScopeSafe, ChainSafe, AddContextEdge;
    if k > 0 {
      WireAllKeepsFacts(s, to, author, context, k - 1);
      var s1 := WireAll(s, to, author, context, k - 1).state;
      AddContextEdgeKeepsFacts(s1, ContextInput(None, context[k - 1].0, to, author, None), context[k - 1].1);
    }
  }

  /** The placeholder's node and its provenance, once its row is in. */
  lemma PlaceholderKeepsFacts(s: State, commandNode: NodeId, workstream: Id, d: Declared)
    requires FactsHold(s)
    requires var placed := Place(s, Content, d.output, Some(workstream), false, d.node);
      placed.Done? && RecordProvenance(placed.state, commandNode, placed.value, CommandDeclaresOutput, d.edge).Done?
    ensures var placed := Place(s, Content, d.output, Some(workstream), false, d.node);
      var t := RecordProvenance(placed.state, commandNode, placed.value, CommandDeclaresOutput, d.edge).state;
      FactsHold(t) && Grown(s, t)
  {
    PlaceKeepsFacts(s, Content, d.output, Some(workstream), false, d.node);
    var placed := Place(s, Content, d.output, Some(workstream), false, d.node);
    RecordProvenanceKeepsFacts(placed.state, commandNode, placed.value, CommandDeclaresOutput, d.edge);
    PlaceholderGrows(s, commandNode, workstream, d);
  }

  lemma PlaceGrows(s: State, role: NodeRole, refId: Id, workstream: Option<Id>, node: NodeId)
    requires Place(s, role, refId, workstream, false, node).Done?
    ensures Grown(s, Place(s, role, refId, workstream, false, node).state)
  {
    hide Constraints, MayCross;
  }

  lemma RecordProvenanceGrows(s: State, from: NodeId, to: NodeId, relation: ProvenanceKind, freshId: Id)
    requires RecordProvenance(s, from, to, relation, freshId).Done?
    ensures Grown(s, RecordProvenance(s, from, to, relation, freshId).state)
  {
    hide Constraints, ProvenanceAt;
  }

  lemma PlaceholderGrows(s: State, commandNode: NodeId, workstream: Id, d: Declared)
    requires var placed := Place(s, Content, d.output, Some(workstream), false, d.node);
      placed.Done? && RecordProvenance(placed.state, commandNode, placed.value, CommandDeclaresOutput, d.edge).Done?
    ensures var placed := Place(s, Content, d.output, Some(workstream), false, d.node);
      Grown(s, RecordProvenance(placed.state, commandNode, placed.value, CommandDeclaresOutput, d.edge).state)
  {
    PlaceGrows(s, Content, d.output, Some(workstream), d.node);
    var placed := Place(s, Content, d.output, Some(workstream), false, d.node);
    RecordProvenanceGrows(placed.state, commandNode, placed.value, CommandDeclaresOutput, d.edge);
    hide Place, RecordProvenance;
  }

  lemma DeclareOutputFactsIff(s: State, command: Id, commandNode: NodeId, d: Declared)
    requires FactsHold(s) && DeclareOutput(s, command, commandNode, d).Done?
    ensures command in s.commands
    ensures var t := DeclareOutput(s, command, commandNode, d).state;
      ScopeSafe(t) <==> HomeBound(s, d.output, s.commands[command].workstream)
    ensures HomeBound(s, d.output, s.commands[command].workstream) ==>
        FactsHold(DeclareOutput(s, command, commandNode, d).state)
  {
    var s1 := InsertOutput(s, d.output, command).state;
    var workstream := s1.commands[command].workstream;
    InsertOutputFactsIff(s, d.output, command);
    hide HomeBound, InsertOutput;
    PlaceholderGrows(s1, commandNode, workstream, d);
    var t := DeclareOutput(s, command, commandNode, d).state;
    if FactsHold(s1) {
      PlaceholderKeepsFacts(s1, commandNode, workstream, d);
    } else {
      hide ScopeSafe, DeclareOutput;
      if ScopeSafe(t) {
        BreachStays(s1, t);
      }
    }
  }

  ghost predicate InstantiatePermitted(s: State, g: Instantiation)
    requires EdgeReferences(s.nodes, s.edges)
  {
    g.outcome.Some? ==> HomeBound(s, g.outcome.value.output, g.workstream)
  }

  /** The command's row and node, before its placeholder and its wires. */
  lemma NewCommandKeepsFacts(s: State, g: Instantiation)
    requires FactsHold(s) && InsertCommand(s, g.command, g.workstream).Done?
    requires Place(InsertCommand(s, g.command, g.workstream).state, Command, g.command, Some(g.workstream), false,
        g.node).Done?
    ensures var t := Place(InsertCommand(s, g.command, g.workstream).state, Command, g.command, Some(g.workstream),
        false, g.node).state;
      && FactsHold(t) && g.command in t.commands && t.commands[g.command].workstream == g.workstream
      && t.edges == s.edges
      && forall out, w | EdgeReferences(s.nodes, s.edges) :: HomeBound(t, out, w) <==> HomeBound(s, out, w)
  {
    InsertCommandKeepsFacts(s, g.command, g.workstream);
    PlaceKeepsFacts(InsertCommand(s, g.command, g.workstream).state, Command, g.command, Some(g.workstream), false,
        g.node);
  }

  lemma InstantiateFactsIff(s: State, g: Instantiation)
    requires FactsHold(s)
    ensures FactsHold(Settle(s, Instantiate(s, g))) <==> (Instantiate(s, g).Done? ==> InstantiatePermitted(s, g))
  {
    if Instantiate(s, g).Done? {
      NewCommandKeepsFacts(s, g);
      var placed := Place(InsertCommand(s, g.command, g.workstream).state, Command, g.command, Some(g.workstream),
          false, g.node);
      var s3 := placed.state;
      if g.outcome.Some? {
        DeclareOutputFactsIff(s3, g.command, placed.value, g.outcome.value);
        s3 := DeclareOutput(s3, g.command, placed.value, g.outcome.value).state;
      }
      hide Place, InsertCommand, DeclareOutput, HomeBound, WellWired, ScopeSafe, ChainSafe;
      assert Instantiate(s, g).state == WireAll(s3, placed.value, g.author, g.context, |g.context|).state;
      WireAllGrows(s3, placed.value, g.author, g.context, |g.context|);
      if FactsHold(s3) {
        WireAllKeepsFacts(s3, placed.value, g.author, g.context, |g.context|);
      } else if ScopeSafe(Instantiate(s, g).state) {
        BreachStays(s3, Instantiate(s, g).state);
      }
    }
  }

  // ----- whole runs

  /** Records that gain something the board already uses must fit it; every other gesture may be made at any time. */
  ghost predicate FactsPermitted(s: State, g: Gesture)
    requires Wellformed(s)
  {
    match g
    case GWriteObject(id, workstream) => ObjectPermitted(s, id, workstream)
    case GBindOutput(out, obj) => BindOutput(s, out, obj).Done? ==> BindPermitted(s, out, obj)
    case GRecordLineage(id, parent) => RecordSessionLineage(s, id, parent).Done? ==> LineagePermitted(s, id, parent)
    case GInstantiate(instance) => Instantiate(s, instance).Done? ==> InstantiatePermitted(s, instance)
    case _ => true
  }

  lemma WiringKeepsFacts(s: State, g: Gesture)
    requires FactsHold(s)
    requires g.GPlace? || g.GSetRunning? || g.GAddContextEdge? || g.GRecordProvenance? || g.GReorder?
             || g.GRemoveEdge? || g.GRestoreEdge? || g.GRemoveNode? || g.GRestoreNode?
    ensures FactsHold(Next(s, g))
  {
    hide FactsHold, Place, AddContextEdge, RecordProvenance, ReorderContextInputs;
    hide RemoveEdge, RestoreEdge, RemoveNode, RestoreNode;
    match g
    case GPlace(role, refId, workstream, running, node) => PlaceKeepsFacts(s, role, refId, workstream, running, node);
    case GSetRunning(node, running) => SetRunningKeepsFacts(s, node, running);
    case GAddContextEdge(input, freshId) => AddContextEdgeKeepsFacts(s, input, freshId);
    case GRecordProvenance(from, to, relation, freshId) => RecordProvenanceKeepsFacts(s, from, to, relation, freshId);
    case GReorder(node, ids) => ReorderKeepsFacts(s, node, ids);
    case GRemoveEdge(edge, now) => if RemoveEdge(s, edge, now).Done? { RemoveEdgeKeepsFacts(s, edge, now); }
    case GRestoreEdge(edge) => if RestoreEdge(s, edge).Done? { RestoreEdgeKeepsFacts(s, edge); }
    case GRemoveNode(node, now) => if RemoveNode(s, node, now).Done? { RemoveNodeKeepsFacts(s, node, now); }
    case GRestoreNode(node) => if RestoreNode(s, node).Done? { RestoreNodeKeepsFacts(s, node); }
  }

  lemma RecordsKeepFacts(s: State, g: Gesture)
    requires FactsHold(s)
    requires g.GPromote? || g.GSetObjectDeleted? || g.GSetSession? || g.GPublish? || g.GDeleteCommand?
        || g.GRestoreCommand?
    ensures FactsHold(Next(s, g))
  {
    hide FactsHold, Publish, DeleteCommand, RestoreCommand;
    match g
    case GPublish(out, now) => if Publish(s, out, now).Done? { PublishKeepsFacts(s, out, now); }
    case GDeleteCommand(command, now) =>
        if DeleteCommand(s, command, now).Done? { DeleteCommandKeepsFacts(s, command, now); }
    case GRestoreCommand(command) => if RestoreCommand(s, command).Done? { RestoreCommandKeepsFacts(s, command); }
    case _ => ObjectsKeepFacts(s, g);
  }

  /** A gesture keeps every fact exactly under its condition, and only four of the gestures have one. */
  lemma NextKeepsFactsIff(s: State, g: Gesture)
    requires FactsHold(s)
    ensures FactsHold(Next(s, g)) <==> FactsPermitted(s, g)
  {
    hide WellWired, ScopeSafe, ChainSafe, ObjectPermitted, BindPermitted, LineagePermitted, InstantiatePermitted;
    match g
    case GWriteObject(id, workstream) => WriteObjectFactsIff(s, id, workstream);
    case GBindOutput(out, obj) => BindOutputFactsIff(s, out, obj);
    case GRecordLineage(id, parent) => RecordLineageFactsIff(s, id, parent);
    case GInstantiate(instance) => InstantiateFactsIff(s, instance);
    case _ =>
      if g.GPromote? || g.GSetObjectDeleted? || g.GSetSession? || g.GPublish? || g.GDeleteCommand?
          || g.GRestoreCommand? {
        RecordsKeepFacts(s, g);
      } else {
        WiringKeepsFacts(s, g);
      }
  }

  ghost predicate FactStep(s: State, g: Gesture, t: State) {
    Wellformed(s) ==> FactsPermitted(s, g) && t == Next(s, g)
  }

  /** A run that asks nothing of restores and late provenance. */
  ghost predicate IsFactRun(states: seq<State>, gs: seq<Gesture>) {
    |states| == |gs| + 1 && forall k: nat | k < |gs| :: FactStep(states[k], gs[k], states[k + 1])
  }

  /**
   * Over every such run, soft-deleted edges included, each wire keeps its legal shape, its scope and its author's right
   * to draw it.
   */
  lemma {:induction false} FactsLast(states: seq<State>, gs: seq<Gesture>, k: nat)
    requires IsFactRun(states, gs) && FactsHold(states[0]) && k <= |gs|
    ensures FactsHold(states[k])
  {
    if k > 0 {
      FactsLast(states, gs, k - 1);
      assert FactStep(states[k - 1], gs[k - 1], states[k]);
      NextKeepsFactsIff(states[k - 1], gs[k - 1]);
    }
  }

  lemma FactsLastFromEmpty(states: seq<State>, gs: seq<Gesture>, k: nat)
    requires IsFactRun(states, gs) && states[0] == EMPTY && k <= |gs|
    ensures FactsHold(states[k])
  {
    assert FactsHold(EMPTY);
    FactsLast(states, gs, k);
  }
}
