/** The gestures over the board as steps, and runs of any of them in any order. */
module Gestures {
  import opened Wrappers
  import opened Edges
  import opened Lineage
  import opened Board
  import opened BoardTopology
  import opened BoardOrder

  datatype Gesture =
    | GPlace(role: NodeRole, refId: Id, workstream: Option<Id>, running: bool, node: NodeId)
    | GSetRunning(node: NodeId, running: bool)
    | GAddContextEdge(input: ContextInput, freshId: Id)
    | GRecordProvenance(from: NodeId, to: NodeId, relation: ProvenanceKind, freshId: Id)
    | GReorder(node: NodeId, ids: seq<Id>)
    | GRemoveEdge(edge: Id, now: Time)
    | GRestoreEdge(edge: Id)
    | GRemoveNode(node: NodeId, now: Time)
    | GRestoreNode(node: NodeId)
    | GWriteObject(obj: Id, workstream: Option<Id>)
    | GPromote(obj: Id)
    | GSetObjectDeleted(obj: Id, at: Option<Time>)
    | GSetSession(session: SessionId, at: Option<Time>)
    | GRecordLineage(session: SessionId, parent: Option<SessionId>)
    | GPublish(out: Id, now: Time)
    | GBindOutput(out: Id, obj: Id)
    | GDeleteCommand(command: Id, now: Time)
    | GRestoreCommand(command: Id)
    | GInstantiate(instance: Instantiation)

  function Settle<T>(s: State, r: Outcome<T>): State {
    if r.Done? then r.state else s
  }

  /** What every gesture may rely on: the schema's constraints, and parents recorded before their children. */
  ghost predicate Wellformed(s: State) {
    Constraints(s) && Rooted(s.lineage)
  }

  /** The tables after a gesture; a refused gesture leaves them alone. */
  ghost function Next(s: State, g: Gesture): State
    requires Wellformed(s)
  {
    match g
    case GPlace(role, refId, workstream, running, node) => Settle(s, Place(s, role, refId, workstream, running, node))
    case GSetRunning(node, running) => SetRunning(s, node, running)
    case GAddContextEdge(input, freshId) => Settle(s, AddContextEdge(s, input, freshId))
    case GRecordProvenance(from, to, relation, freshId) => Settle(s, RecordProvenance(s, from, to, relation, freshId))
    case GReorder(node, ids) => Settle(s, ReorderContextInputs(s, node, ids))
    case GRemoveEdge(edge, now) => Settle(s, RemoveEdge(s, edge, now))
    case GRestoreEdge(edge) => Settle(s, RestoreEdge(s, edge))
    case GRemoveNode(node, now) => Settle(s, RemoveNode(s, node, now))
    case GRestoreNode(node) => Settle(s, RestoreNode(s, node))
    case GWriteObject(obj, workstream) => WriteObject(s, obj, workstream)
    case GPromote(obj) => Settle(s, Promote(s, obj))
    case GSetObjectDeleted(obj, at) => Settle(s, SetObjectDeleted(s, obj, at))
    case GSetSession(session, at) => SetSession(s, session, at)
    case GRecordLineage(session, parent) => Settle(s, RecordSessionLineage(s, session, parent))
    case GPublish(out, now) => Settle(s, Publish(s, out, now))
    case GBindOutput(out, obj) => Settle(s, BindOutput(s, out, obj))
    case GDeleteCommand(command, now) => Settle(s, DeleteCommand(s, command, now))
    case GRestoreCommand(command) => Settle(s, RestoreCommand(s, command))
    case GInstantiate(instance) => Settle(s, Instantiate(s, instance))
  }

  // ----- no gesture breaks the tables

  /** A new session recorded as its own parent: the one insert the schema admits that no chain survives. */
  predicate NamesItself(s: State, g: Gesture) {
    g.GRecordLineage? && g.parent == Some(g.session) && !Recorded(s.lineage, g.session)
  }

  lemma SetRunningKeepsConstraints(s: State, n: NodeId, running: bool)
    requires Constraints(s)
    ensures Constraints(SetRunning(s, n, running))
  {
    var t := SetRunning(s, n, running);
    forall a, b | a in t.nodes && b in t.nodes && t.nodes[a].role == t.nodes[b].role
        && t.nodes[a].refId == t.nodes[b].refId
      ensures a == b
    {
      assert s.nodes[a].role == s.nodes[b].role && s.nodes[a].refId == s.nodes[b].refId;
    }
  }

  lemma ReorderKeepsConstraints(s: State, n: NodeId, ids: seq<Id>)
    requires Constraints(s) && ReorderContextInputs(s, n, ids).Done?
    ensures Constraints(ReorderContextInputs(s, n, ids).state)
  {
    var t := ReorderContextInputs(s, n, ids).state;
    ReorderOutcome(s, n, ids);
    forall i: nat | i < |s.edges|
      ensures SameFact(s.edges[i], t.edges[i])
    {
      ReorderKeepsRow(s, n, ids, i);
    }
    assert LiveIndexes(Pass(Pass(s.edges, ids, |ids|, -1), ids, |ids|, 1));
    assert |t.edges| == |s.edges|;
  }

  /** The gestures that write edges or nodes. */
  lemma WiringStaysWellformed(s: State, g: Gesture)
    requires Wellformed(s)
    requires g.GPlace? || g.GSetRunning? || g.GAddContextEdge? || g.GRecordProvenance? || g.GReorder? || g.GInstantiate?
             || g.GRemoveEdge? || g.GRestoreEdge? || g.GRemoveNode? || g.GRestoreNode?
    ensures Wellformed(Next(s, g)) && Next(s, g).lineage == s.lineage
  {
    hide Place, AddContextEdge, RecordProvenance, Instantiate, Rooted;
    match g
    case GSetRunning(node, running) => SetRunningKeepsConstraints(s, node, running);
    case GReorder(node, ids) =>
      if ReorderContextInputs(s, node, ids).Done? {
        ReorderKeepsConstraints(s, node, ids);
      }
    case _ =>
  }

  predicate WritesObjects(g: Gesture) {
    g.GWriteObject? || g.GPromote? || g.GSetObjectDeleted? || g.GSetSession?
  }

  predicate WritesOutputs(g: Gesture) {
    g.GPublish? || g.GBindOutput? || g.GDeleteCommand? || g.GRestoreCommand?
  }

  lemma ObjectsStayWellformed(s: State, g: Gesture)
    requires Wellformed(s) && WritesObjects(g)
    ensures Wellformed(Next(s, g)) && Next(s, g).lineage == s.lineage
  {
    assert NodeKeys(s.nodes) && EdgeKeys(s.edges) && LiveIndexes(s.edges) && EdgeReferences(s.nodes, s.edges);
    hide Rooted, NodeKeys, EdgeKeys, LiveIndexes, EdgeReferences;
  }

  lemma OutputsStayWellformed(s: State, g: Gesture)
    requires Wellformed(s) && WritesOutputs(g)
    ensures Wellformed(Next(s, g)) && Next(s, g).lineage == s.lineage
  {
    assert NodeKeys(s.nodes) && EdgeKeys(s.edges) && LiveIndexes(s.edges) && EdgeReferences(s.nodes, s.edges);
    hide Rooted, NodeKeys, EdgeKeys, LiveIndexes, EdgeReferences;
  }

  /**
   * Whatever is done to the board, in whatever state, its tables stay well formed, exactly unless a new session names
   * itself as parent.
   */
  lemma NextStaysWellformedIff(s: State, g: Gesture)
    requires Wellformed(s)
    ensures Wellformed(Next(s, g)) <==> !NamesItself(s, g)
  {
    if g.GRecordLineage? {
      var r := RecordSessionLineage(s, g.session, g.parent);
      if r.Done? {
        RecordKeepsRooted(s.lineage, g.session, g.parent);
      }
    } else if WritesObjects(g) {
      ObjectsStayWellformed(s, g);
    } else if WritesOutputs(g) {
      OutputsStayWellformed(s, g);
    } else {
      WiringStaysWellformed(s, g);
    }
  }

  // ----- runs of any gestures

  ghost predicate Move(s: State, g: Gesture, t: State) {
    Wellformed(s) ==> !NamesItself(s, g) && t == Next(s, g)
  }

  /** `states` in turn, any gesture at all between each and the next; only no session names itself as its parent. */
  ghost predicate IsWalk(states: seq<State>, gs: seq<Gesture>) {
    |states| == |gs| + 1 && forall k: nat | k < |gs| :: Move(states[k], gs[k], states[k + 1])
  }

  lemma {:induction false} WalkStaysWellformed(states: seq<State>, gs: seq<Gesture>, k: nat)
    requires IsWalk(states, gs) && Wellformed(states[0]) && k <= |gs|
    ensures Wellformed(states[k])
  {
    if k > 0 {
      WalkStaysWellformed(states, gs, k - 1);
      assert Move(states[k - 1], gs[k - 1], states[k]);
      NextStaysWellformedIff(states[k - 1], gs[k - 1]);
    }
  }
}
