/** Removal and restoration: when an undo is exact, when it is refused, and what an unguarded restore can break. */
module BoardUndo {
  import opened Wrappers
  import opened Reachability
  import opened Edges
  import opened Lineage
  import opened Board
  import opened BoardTopology
  import opened BoardScope
  import opened BoardOrder
  import opened Gestures
  import opened BoardFacts
  import opened BoardRuns

  /** No edge through `n` already carries the stamp the clock is about to hand out. */
  predicate Unstamped(edges: seq<EdgeRow>, n: NodeId, now: Time) {
    forall i | 0 <= i < |edges| && edges[i].Touches(n) :: edges[i].deletedAt != Some(now)
  }

  /** Removing a live node always succeeds, and says which wires went down with it. */
  lemma RemoveNodeLands(s: State, n: NodeId, now: Time)
    requires Constraints(s) && n in s.nodes && s.nodes[n].deletedAt.None?
    ensures var r := RemoveNode(s, n, now);
            && r.Done? && r.value == NodeRemoval(Through(s.edges, n, None), true)
            && r.state.nodes == s.nodes[n := s.nodes[n].(deletedAt := Some(now))]
            && forall i | 0 <= i < |s.edges| ::
                 r.state.edges[i] == if s.edges[i].Touches(n) && s.edges[i].deletedAt.None?
                     then s.edges[i].(deletedAt := Some(now)) else s.edges[i]
  {
    var t := s.(edges := Stamp(s.edges, Through(s.edges, n, None), Some(now)),
        nodes := s.nodes[n := s.nodes[n].(deletedAt := Some(now))]);
    forall i | 0 <= i < |s.edges|
      ensures t.edges[i] == if s.edges[i].Touches(n) && s.edges[i].deletedAt.None?
          then s.edges[i].(deletedAt := Some(now)) else s.edges[i]
    {
      ThroughRow(s.edges, n, None, i);
    }
    assert Constraints(t);
  }

  /**
   * With nothing in between, restoring undoes a removal to the letter exactly when the node's record is alive and no
   * edge through it carried the same whole-second stamp before.
   */
  lemma UndoIsIdentityIff(s: State, n: NodeId, now: Time)
    requires Constraints(s) && n in s.nodes && s.nodes[n].deletedAt.None?
    ensures RemoveNode(s, n, now).Done?
    ensures RestoreNode(RemoveNode(s, n, now).state, n) == Done(s, RemoveNode(s, n, now).value) <==>
            && (s.nodes[n].role.Content? && s.nodes[n].refId in s.objects ==>
                s.objects[s.nodes[n].refId].deletedAt.None?)
            && (s.nodes[n].role.Command? && s.nodes[n].refId in s.commands ==>
                  s.commands[s.nodes[n].refId].deletedAt.None?)
            && (s.nodes[n].role.Session? && s.nodes[n].refId in s.sessions ==> s.sessions[s.nodes[n].refId].None?)
            && Unstamped(s.edges, n, now)
  {
    SubjectInFields(s, n);
    RemoveNodeLands(s, n, now);
    RestoreRevives(s, n, now);
    var t := RemoveNode(s, n, now).state;
    StampedTable(s, t, n, now);
    hide RemoveNode, RestoreNode, SubjectIsDeleted, Unstamped, Constraints;
    var back := BroughtBack(t, n, Some(now));
    assert Unstamped(s.edges, n, now) ==> back == s;
    assert !Unstamped(s.edges, n, now) ==> back.edges != s.edges;
  }

  /** The tables a restore writes: the node and the rows through it with this stamp come back. */
  function BroughtBack(t: State, n: NodeId, stamp: Option<Time>): State
    requires n in t.nodes
  {
    t.(edges := Stamp(t.edges, Through(t.edges, n, stamp), None), nodes := t.nodes[n := t.nodes[n].(deletedAt := None)])
  }

  lemma RestoreRevives(s: State, n: NodeId, now: Time)
    requires Constraints(s) && n in s.nodes && s.nodes[n].deletedAt.None? && RemoveNode(s, n, now).Done?
    ensures var t := RemoveNode(s, n, now).state;
      && n in t.nodes && EdgeKeys(t.edges)
      && t == s.(edges := t.edges, nodes := s.nodes[n := s.nodes[n].(deletedAt := Some(now))])
      && RestoreNode(t, n) == if SubjectIsDeleted(s, s.nodes[n]) then Refused(SubjectDeleted)
                              else Commit(BroughtBack(t, n, Some(now)),
                                  NodeRemoval(Through(t.edges, n, Some(now)), true))
  {
  }

  /** Stamping back what carries the removal's stamp gives the old table exactly when the stamp was new. */
  lemma StampedTable(s: State, t: State, n: NodeId, now: Time)
    requires Constraints(s) && EdgeKeys(t.edges) && |t.edges| == |s.edges|
    requires forall i | 0 <= i < |s.edges| ::
               t.edges[i] == if s.edges[i].Touches(n) && s.edges[i].deletedAt.None?
                   then s.edges[i].(deletedAt := Some(now)) else s.edges[i]
    ensures Stamp(t.edges, Through(t.edges, n, Some(now)), None) == s.edges <==> Unstamped(s.edges, n, now)
    ensures Unstamped(s.edges, n, now) ==> Through(t.edges, n, Some(now)) == Through(s.edges, n, None)
  {
    var back := Stamp(t.edges, Through(t.edges, n, Some(now)), None);
    forall i | 0 <= i < |s.edges|
      ensures back[i] == if s.edges[i].Touches(n) && s.edges[i].deletedAt in {None, Some(now)}
          then s.edges[i].(deletedAt := None) else s.edges[i]
    {
      ThroughRow(t.edges, n, Some(now), i);
    }
    if Unstamped(s.edges, n, now) {
      assert back == s.edges;
      forall x
        ensures x in Through(t.edges, n, Some(now)) <==> x in Through(s.edges, n, None)
      {
        ThroughSame(s, t, n, now, x);
      }
    } else {
      var i :| 0 <= i < |s.edges| && s.edges[i].Touches(n) && s.edges[i].deletedAt == Some(now);
      assert back[i] != s.edges[i];
    }
  }

  lemma ThroughSame(s: State, t: State, n: NodeId, now: Time, x: Id)
    requires |t.edges| == |s.edges| && Unstamped(s.edges, n, now)
    requires forall i | 0 <= i < |s.edges| ::
               t.edges[i] == if s.edges[i].Touches(n) && s.edges[i].deletedAt.None?
                   then s.edges[i].(deletedAt := Some(now)) else s.edges[i]
    ensures x in Through(t.edges, n, Some(now)) <==> x in Through(s.edges, n, None)
  {
    if x in Through(s.edges, n, None) {
      var i :| 0 <= i < |s.edges| && s.edges[i].id == x && s.edges[i].Touches(n) && s.edges[i].deletedAt == None;
      assert t.edges[i].id == x && t.edges[i].Touches(n) && t.edges[i].deletedAt == Some(now);
    }
    if x in Through(t.edges, n, Some(now)) {
      var i :| 0 <= i < |t.edges| && t.edges[i].id == x && t.edges[i].Touches(n) && t.edges[i].deletedAt == Some(now);
      assert s.edges[i].id == x && s.edges[i].Touches(n) && s.edges[i].deletedAt == None;
    }
  }

  // ----- undo after other gestures

  /** A gesture that neither re-stamps nor restores a wire of the removed node, nor the node itself. */
  ghost predicate LeavesAlone(s: State, g: Gesture, n: NodeId) {
    match g
    case GRemoveEdge(id, _) => var k := EdgeAt(s.edges, id); k < |s.edges| ==> !s.edges[k].Touches(n)
    case GRestoreEdge(id) => var k := EdgeAt(s.edges, id); k < |s.edges| ==> !s.edges[k].Touches(n)
    case GRestoreNode(m) =>
      m != n && (m in s.nodes ==> forall i | 0 <= i < |s.edges| && s.edges[i].Touches(n) && s.edges[i].Touches(m) ::
                                    s.edges[i].deletedAt != s.nodes[m].deletedAt)
    case _ => true
  }

  /** In `u` the removed node and every wire through it are as they were in `t`, and no new wire found it. */
  ghost predicate Frozen(t: State, u: State, n: NodeId) {
    && n in t.nodes && n in u.nodes && t.nodes[n].deletedAt.Some?
    && u.nodes[n] == t.nodes[n].(running := u.nodes[n].running)
    && |t.edges| <= |u.edges|
    && (forall i | 0 <= i < |t.edges| :: SameFact(t.edges[i], u.edges[i]))
    && (forall i | 0 <= i < |t.edges| && t.edges[i].Touches(n) ::
        t.edges[i].deletedAt.Some? && u.edges[i] == t.edges[i])
    && (forall i | |t.edges| <= i < |u.edges| :: !u.edges[i].Touches(n))
  }

  lemma FrozenTransitive(t: State, u: State, v: State, n: NodeId)
    requires Frozen(t, u, n) && Frozen(u, v, n)
    ensures Frozen(t, v, n)
  {
    forall i | 0 <= i < |t.edges|
      ensures SameFact(t.edges[i], v.edges[i])
    {
      assert SameFact(t.edges[i], u.edges[i]) && SameFact(u.edges[i], v.edges[i]);
    }
  }

  /** A removed node whose wires are all down. */
  ghost predicate Down(u: State, n: NodeId) {
    n in u.nodes && u.nodes[n].deletedAt.Some? && forall i | 0 <= i < |u.edges| && u.edges[i].Touches(n) ::
        u.edges[i].deletedAt.Some?
  }

  lemma FrozenStaysDown(t: State, u: State, n: NodeId)
    requires Down(t, n) && Frozen(t, u, n)
    ensures Down(u, n)
  {
  }

  lemma StampLeavesFrozen(u: State, v: State, n: NodeId, ids: set<Id>, at: Option<Time>)
    requires Down(u, n) && v.edges == Stamp(u.edges, ids, at)
    requires n in v.nodes && v.nodes[n] == u.nodes[n]
    requires forall i | 0 <= i < |u.edges| && u.edges[i].Touches(n) :: u.edges[i].id !in ids
    ensures Frozen(u, v, n)
  {
  }

  lemma RemoveNodeLeavesFrozen(u: State, m: NodeId, now: Time, n: NodeId)
    requires Constraints(u) && Down(u, n)
    ensures Frozen(u, Settle(u, RemoveNode(u, m, now)), n)
  {
    var r := RemoveNode(u, m, now);
    if r.Done? && u.nodes[m].deletedAt.None? {
      forall i | 0 <= i < |u.edges| && u.edges[i].Touches(n)
        ensures u.edges[i].id !in Through(u.edges, m, None)
      {
        ThroughRow(u.edges, m, None, i);
      }
      StampLeavesFrozen(u, r.state, n, Through(u.edges, m, None), Some(now));
    }
  }

  lemma RestoreNodeLeavesFrozen(u: State, m: NodeId, n: NodeId)
    requires Constraints(u) && Down(u, n) && LeavesAlone(u, GRestoreNode(m), n)
    ensures Frozen(u, Settle(u, RestoreNode(u, m)), n)
  {
    var r := RestoreNode(u, m);
    if r.Done? && u.nodes[m].deletedAt.Some? {
      forall i | 0 <= i < |u.edges| && u.edges[i].Touches(n)
        ensures u.edges[i].id !in Through(u.edges, m, u.nodes[m].deletedAt)
      {
        ThroughRow(u.edges, m, u.nodes[m].deletedAt, i);
      }
      StampLeavesFrozen(u, r.state, n, Through(u.edges, m, u.nodes[m].deletedAt), None);
    }
  }

  lemma EdgeStampLeavesFrozen(u: State, id: Id, at: Option<Time>, n: NodeId)
    requires Constraints(u) && Down(u, n) && EdgeAt(u.edges, id) < |u.edges| && !u.edges[EdgeAt(u.edges, id)].Touches(n)
    ensures Frozen(u, u.(edges := Stamp(u.edges, {id}, at)), n)
  {
    forall i | 0 <= i < |u.edges| && u.edges[i].Touches(n)
      ensures u.edges[i].id != id
    {
      assert i != EdgeAt(u.edges, id);
    }
    StampLeavesFrozen(u, u.(edges := Stamp(u.edges, {id}, at)), n, {id}, at);
  }

  lemma ReorderLeavesFrozen(u: State, m: NodeId, ids: seq<Id>, n: NodeId)
    requires Constraints(u) && Down(u, n)
    ensures Frozen(u, Settle(u, ReorderContextInputs(u, m, ids)), n)
  {
    var r := ReorderContextInputs(u, m, ids);
    if r.Done? {
      ReorderOutcome(u, m, ids);
      forall i: nat | i < |u.edges|
        ensures SameFact(u.edges[i], r.state.edges[i]) && (u.edges[i].Touches(n) ==> r.state.edges[i] == u.edges[i])
      {
        ReorderKeepsRow(u, m, ids, i);
        ReorderedRow(u.edges, m, ids, i);
      }
    }
  }

  lemma {:induction false} WireAllLeavesFrozen(u: State, to: NodeId, author: Author, context: seq<(NodeId, Id)>, k: nat,
      n: NodeId)
    requires Wellformed(u) && Down(u, n) && k <= |context| && WireAll(u, to, author, context, k).Done?
    ensures Frozen(u, WireAll(u, to, author, context, k).state, n)
  {
    hide AddContextEdge;
    if k > 0 {
      WireAllLeavesFrozen(u, to, author, context, k - 1, n);
      var s1 := WireAll(u, to, author, context, k - 1).state;
      FrozenStaysDown(u, s1, n);
      var last := AddContextEdge(s1, ContextInput(None, context[k - 1].0, to, author, None), context[k - 1].1);
      AddContextEdgeLeavesFrozen(s1, ContextInput(None, context[k - 1].0, to, author, None), context[k - 1].1, n);
      FrozenTransitive(u, s1, last.state, n);
    }
  }

  lemma AppendLeavesFrozen(u: State, row: EdgeRow, n: NodeId)
    requires Down(u, n) && !row.Touches(n)
    ensures Frozen(u, u.(edges := u.edges + [row]), n)
  {
  }

  lemma AddContextEdgeLeavesFrozen(u: State, input: ContextInput, freshId: Id, n: NodeId)
    requires Wellformed(u) && Down(u, n)
    ensures Frozen(u, Settle(u, AddContextEdge(u, input, freshId)), n)
  {
    var r := AddContextEdge(u, input, freshId);
    if r.Done? && r.state != u {
      AppendLeavesFrozen(u, NewWire(u, input, freshId), n);
    }
  }

  lemma RecordProvenanceLeavesFrozen(u: State, from: NodeId, to: NodeId, relation: ProvenanceKind, freshId: Id,
      n: NodeId)
    requires Constraints(u) && Down(u, n)
    ensures Frozen(u, Settle(u, RecordProvenance(u, from, to, relation, freshId)), n)
  {
    var r := RecordProvenance(u, from, to, relation, freshId);
    if r.Done? && r.state != u {
      AppendLeavesFrozen(u, EdgeRow(freshId, Provenance(relation), from, to, None), n);
    }
  }

  lemma PlaceLeavesFrozen(u: State, role: NodeRole, refId: Id, workstream: Option<Id>, running: bool, id: NodeId,
      n: NodeId)
    requires Constraints(u) && Down(u, n)
    ensures Frozen(u, Settle(u, Place(u, role, refId, workstream, running, id)), n)
  {
  }

  lemma DeclareOutputLeavesFrozen(u: State, command: Id, commandNode: NodeId, d: Declared, n: NodeId)
    requires Constraints(u) && Down(u, n) && DeclareOutput(u, command, commandNode, d).Done?
    ensures Frozen(u, DeclareOutput(u, command, commandNode, d).state, n)
  {
    var s1 := InsertOutput(u, d.output, command).state;
    var placed := Place(s1, Content, d.output, Some(s1.commands[command].workstream), false, d.node);
    PlaceLeavesFrozen(s1, Content, d.output, Some(s1.commands[command].workstream), false, d.node, n);
    FrozenStaysDown(s1, placed.state, n);
    RecordProvenanceLeavesFrozen(placed.state, commandNode, placed.value, CommandDeclaresOutput, d.edge, n);
    FrozenTransitive(s1, placed.state, DeclareOutput(u, command, commandNode, d).state, n);
  }

  lemma InstantiateLeavesFrozen(u: State, g: Instantiation, n: NodeId)
    requires Wellformed(u) && Down(u, n)
    ensures Frozen(u, Settle(u, Instantiate(u, g)), n)
  {
    if Instantiate(u, g).Done? {
      var s1 := InsertCommand(u, g.command, g.workstream).state;
      var placed := Place(s1, Command, g.command, Some(g.workstream), false, g.node);
      PlaceLeavesFrozen(s1, Command, g.command, Some(g.workstream), false, g.node, n);
      FrozenStaysDown(s1, placed.state, n);
      var s3 := placed.state;
      if g.outcome.Some? {
        DeclareOutputLeavesFrozen(placed.state, g.command, placed.value, g.outcome.value, n);
        s3 := DeclareOutput(placed.state, g.command, placed.value, g.outcome.value).state;
        FrozenTransitive(s1, placed.state, s3, n);
        FrozenStaysDown(s1, s3, n);
      }
      WireAllLeavesFrozen(s3, placed.value, g.author, g.context, |g.context|, n);
      FrozenTransitive(s1, s3, WireAll(s3, placed.value, g.author, g.context, |g.context|).state, n);
    }
  }

  /** Gestures that write no edge, and of nodes only whether they run. */
  lemma SameBoardLeavesFrozen(u: State, v: State, n: NodeId)
    requires Down(u, n) && v.edges == u.edges && n in v.nodes
        && v.nodes[n] == u.nodes[n].(running := v.nodes[n].running)
    ensures Frozen(u, v, n)
  {
  }

  lemma ObjectsLeaveFrozen(u: State, g: Gesture, n: NodeId)
    requires Wellformed(u) && Down(u, n) && (WritesObjects(g) || g.GSetRunning? || g.GRecordLineage?)
    ensures Frozen(u, Next(u, g), n)
  {
    SameBoardLeavesFrozen(u, Next(u, g), n);
  }

  lemma OutputsLeaveFrozen(u: State, g: Gesture, n: NodeId)
    requires Wellformed(u) && Down(u, n) && WritesOutputs(g)
    ensures Frozen(u, Next(u, g), n)
  {
    SameBoardLeavesFrozen(u, Next(u, g), n);
  }

  predicate WritesEdges(g: Gesture) {
    g.GReorder? || g.GRemoveEdge? || g.GRestoreEdge? || g.GRemoveNode? || g.GRestoreNode?
  }

  lemma RemoveEdgeLeavesFrozen(u: State, id: Id, now: Time, n: NodeId)
    requires Constraints(u) && Down(u, n) && LeavesAlone(u, GRemoveEdge(id, now), n)
    ensures Frozen(u, Settle(u, RemoveEdge(u, id, now)), n)
  {
    if RemoveEdge(u, id, now).Done? {
      EdgeStampLeavesFrozen(u, id, Some(now), n);
    }
  }

  lemma RestoreEdgeLeavesFrozen(u: State, id: Id, n: NodeId)
    requires Constraints(u) && Down(u, n) && LeavesAlone(u, GRestoreEdge(id), n)
    ensures Frozen(u, Settle(u, RestoreEdge(u, id)), n)
  {
    if RestoreEdge(u, id).Done? {
      EdgeStampLeavesFrozen(u, id, None, n);
    }
  }

  lemma RewritesLeaveFrozen(u: State, g: Gesture, n: NodeId)
    requires Wellformed(u) && Down(u, n) && LeavesAlone(u, g, n) && WritesEdges(g)
    ensures Frozen(u, Next(u, g), n)
  {
    match g
    case GReorder(node, ids) => ReorderLeavesFrozen(u, node, ids, n);
    case GRemoveEdge(edge, now) => RemoveEdgeLeavesFrozen(u, edge, now, n);
    case GRestoreEdge(edge) => RestoreEdgeLeavesFrozen(u, edge, n);
    case GRemoveNode(node, now) => RemoveNodeLeavesFrozen(u, node, now, n);
    case GRestoreNode(node) => RestoreNodeLeavesFrozen(u, node, n);
  }

  lemma AdditionsLeaveFrozen(u: State, g: Gesture, n: NodeId)
    requires Wellformed(u) && Down(u, n) && (g.GPlace? || g.GAddContextEdge? || g.GRecordProvenance?)
    ensures Frozen(u, Next(u, g), n)
  {
    match g
    case GPlace(role, refId, workstream, running, node) =>
        PlaceLeavesFrozen(u, role, refId, workstream, running, node, n);
    case GAddContextEdge(input, freshId) => AddContextEdgeLeavesFrozen(u, input, freshId, n);
    case GRecordProvenance(from, to, relation, freshId) =>
        RecordProvenanceLeavesFrozen(u, from, to, relation, freshId, n);
  }

  lemma NextLeavesFrozen(u: State, g: Gesture, n: NodeId)
    requires Wellformed(u) && Down(u, n) && LeavesAlone(u, g, n)
    ensures Frozen(u, Next(u, g), n)
  {
    if g.GInstantiate? {
      InstantiateLeavesFrozen(u, g.instance, n);
    } else if WritesEdges(g) {
      RewritesLeaveFrozen(u, g, n);
    } else if WritesObjects(g) || g.GSetRunning? || g.GRecordLineage? {
      ObjectsLeaveFrozen(u, g, n);
    } else if WritesOutputs(g) {
      OutputsLeaveFrozen(u, g, n);
    } else {
      AdditionsLeaveFrozen(u, g, n);
    }
  }

  lemma {:induction false} WalkLeavesFrozen(states: seq<State>, gs: seq<Gesture>, n: NodeId, k: nat)
    requires IsWalk(states, gs) && Wellformed(states[0]) && 1 <= k <= |gs|
    requires Down(states[1], n)
    requires forall j | 1 <= j < |gs| :: LeavesAlone(states[j], gs[j], n)
    ensures Frozen(states[1], states[k], n)
  {
    hide Frozen, LeavesAlone, Next;
    if k > 1 {
      WalkLeavesFrozen(states, gs, n, k - 1);
      WalkStaysWellformed(states, gs, k - 1);
      assert Move(states[k - 1], gs[k - 1], states[k]);
      FrozenStaysDown(states[1], states[k - 1], n);
      NextLeavesFrozen(states[k - 1], gs[k - 1], n);
      FrozenTransitive(states[1], states[k - 1], states[k], n);
    } else {
      FrozenItself(states[1], n);
    }
  }

  lemma FrozenItself(u: State, n: NodeId)
    requires Down(u, n)
    ensures Frozen(u, u, n)
  {
  }

  /**
   * Undo across a whole run: remove a node, make any gestures at all that leave its wires alone, restore it. When the
   * restore lands it brings back exactly the wires the removal reported, each as it was, and none that was removed
   * separately; the node is as it was but for whether it runs, and nothing else on the board changes.
   */
  lemma UndoAcrossRun(states: seq<State>, gs: seq<Gesture>, n: NodeId, now: Time)
    requires IsWalk(states, gs) && Wellformed(states[0]) && |gs| >= 1 && gs[0] == GRemoveNode(n, now)
    requires n in states[0].nodes && states[0].nodes[n].deletedAt.None? && Unstamped(states[0].edges, n, now)
    requires forall j | 1 <= j < |gs| :: LeavesAlone(states[j], gs[j], n)
    ensures var before, after := states[0], states[|gs|];
            n in after.nodes && |before.edges| <= |after.edges| &&
            (RestoreNode(after, n).Done? ==> Undone(before, after, n, now))
  {
    var before, after := states[0], states[|gs|];
    assert Move(before, gs[0], states[1]);
    RemoveNodeLands(before, n, now);
    WalkLeavesFrozen(states, gs, n, |gs|);
    WalkStaysWellformed(states, gs, |gs|);
    UndoFromFrozen(before, states[1], after, n, now);
  }

  /** What undoing the removal makes of the tables reached since. */
  ghost predicate Undone(before: State, after: State, n: NodeId, now: Time)
    requires n in before.nodes && |before.edges| <= |after.edges| && RestoreNode(after, n).Done?
  {
    var undo := RestoreNode(after, n);
    && RemoveNode(before, n, now).Done? && undo.value == RemoveNode(before, n, now).value
    && undo.state == after.(nodes := undo.state.nodes, edges := undo.state.edges)
    && undo.state.nodes.Keys == after.nodes.Keys && n in undo.state.nodes
    && undo.state.nodes[n] == before.nodes[n].(running := after.nodes[n].running)
    && (forall m | m in after.nodes && m != n :: undo.state.nodes[m] == after.nodes[m])
    && |undo.state.edges| == |after.edges|
    && (forall i | 0 <= i < |before.edges| && before.edges[i].Touches(n) :: undo.state.edges[i] == before.edges[i])
    && (forall i | 0 <= i < |after.edges| && !after.edges[i].Touches(n) :: undo.state.edges[i] == after.edges[i])
    && (forall i | |before.edges| <= i < |after.edges| :: !after.edges[i].Touches(n))
  }

  lemma UndoFromFrozen(before: State, t: State, after: State, n: NodeId, now: Time)
    requires Frozen(t, after, n) && |t.edges| == |before.edges| && Unstamped(before.edges, n, now)
        && Constraints(before)
    requires n in before.nodes && before.nodes[n].deletedAt.None? && Constraints(after)
    requires t.nodes[n] == before.nodes[n].(deletedAt := Some(now))
    requires forall i | 0 <= i < |before.edges| ::
               t.edges[i] == if before.edges[i].Touches(n) && before.edges[i].deletedAt.None?
                             then before.edges[i].(deletedAt := Some(now)) else before.edges[i]
    ensures RestoreNode(after, n).Done? ==> Undone(before, after, n, now)
  {
    RemoveNodeLands(before, n, now);
    var touched := Through(after.edges, n, Some(now));
    forall i: nat | i < |after.edges|
      ensures after.edges[i].id in touched <==> after.edges[i].Touches(n) && after.edges[i].deletedAt == Some(now)
    {
      ThroughRow(after.edges, n, Some(now), i);
    }
    forall x
      ensures x in touched <==> x in Through(before.edges, n, None)
    {
      FrozenThrough(before, t, after, n, now, x);
    }
    assert touched == Through(before.edges, n, None);
    hide RemoveNode, Constraints, SubjectIsDeleted;
  }

  lemma FrozenThrough(before: State, t: State, after: State, n: NodeId, now: Time, x: Id)
    requires Frozen(t, after, n) && |t.edges| == |before.edges| && Unstamped(before.edges, n, now)
    requires forall i | 0 <= i < |before.edges| ::
               t.edges[i] == if before.edges[i].Touches(n) && before.edges[i].deletedAt.None?
                   then before.edges[i].(deletedAt := Some(now)) else before.edges[i]
    ensures x in Through(after.edges, n, Some(now)) <==> x in Through(before.edges, n, None)
  {
    ThroughSame(before, t, n, now, x);
    if x in Through(t.edges, n, Some(now)) {
      var i :| 0 <= i < |t.edges| && t.edges[i].id == x && t.edges[i].Touches(n) && t.edges[i].deletedAt == Some(now);
      assert after.edges[i].id == x && after.edges[i].Touches(n) && after.edges[i].deletedAt == Some(now);
    }
    if x in Through(after.edges, n, Some(now)) {
      var i :| 0 <= i < |after.edges| && after.edges[i].id == x && after.edges[i].Touches(n)
          && after.edges[i].deletedAt == Some(now);
      assert i < |t.edges| && t.edges[i].id == x && t.edges[i].Touches(n) && t.edges[i].deletedAt == Some(now);
    }
  }

  // ----- when an undo is refused

  /** Two rows that cannot both be live: the same wire twice, or one place in the order twice. */
  predicate Collide(e: EdgeRow, f: EdgeRow) {
    && e.kind.Context? && f.kind.Context? && e.to == f.to
    && (e.from == f.from || e.kind.ordinal == f.kind.ordinal)
  }

  /**
   * A node's record is deleted when the object, command or session its reference names is on record with a deletion
   * stamp; a reference to nothing on record is no deletion.
   */
  lemma SubjectInFields(s: State, n: NodeId)
    requires n in s.nodes
    ensures SubjectIsDeleted(s, s.nodes[n]) <==>
            || (s.nodes[n].role.Content? && s.nodes[n].refId in s.objects
                && s.objects[s.nodes[n].refId].deletedAt.Some?)
            || (s.nodes[n].role.Command? && s.nodes[n].refId in s.commands
                && s.commands[s.nodes[n].refId].deletedAt.Some?)
            || (s.nodes[n].role.Session? && s.nodes[n].refId in s.sessions && s.sessions[s.nodes[n].refId].Some?)
  {
  }

  /** Restoring a removed node is refused for its record exactly when that record is deleted. */
  lemma RestoreRefusedIff(s: State, n: NodeId)
    requires n in s.nodes && s.nodes[n].deletedAt.Some?
    ensures RestoreNode(s, n) == Refused(SubjectDeleted) <==>
            || (s.nodes[n].role.Content? && s.nodes[n].refId in s.objects
                && s.objects[s.nodes[n].refId].deletedAt.Some?)
            || (s.nodes[n].role.Command? && s.nodes[n].refId in s.commands
                && s.commands[s.nodes[n].refId].deletedAt.Some?)
            || (s.nodes[n].role.Session? && s.nodes[n].refId in s.sessions && s.sessions[s.nodes[n].refId].Some?)
  {
    SubjectInFields(s, n);
    hide SubjectIsDeleted, Constraints;
  }

  /**
   * Restoring a removed node is refused exactly when its record is deleted or a wire it brings back collides with a
   * live wire or with another it brings back: the place in the order may have been taken while it was away.
   */
  lemma RestoreNodeLandsIff(s: State, n: NodeId)
    requires Constraints(s) && n in s.nodes && s.nodes[n].deletedAt.Some?
    ensures RestoreNode(s, n).Done? <==>
            && (s.nodes[n].role.Content? && s.nodes[n].refId in s.objects ==>
                s.objects[s.nodes[n].refId].deletedAt.None?)
            && (s.nodes[n].role.Command? && s.nodes[n].refId in s.commands ==>
                  s.commands[s.nodes[n].refId].deletedAt.None?)
            && (s.nodes[n].role.Session? && s.nodes[n].refId in s.sessions ==> s.sessions[s.nodes[n].refId].None?)
            && (forall i, j | 0 <= i < j < |s.edges| && Returns(s, n, i) && Returns(s, n, j) ::
                !Collide(s.edges[i], s.edges[j]))
  {
    SubjectInFields(s, n);
    hide SubjectIsDeleted;
    var touched := Through(s.edges, n, s.nodes[n].deletedAt);
    var t := s.(edges := Stamp(s.edges, touched, None), nodes := s.nodes[n := s.nodes[n].(deletedAt := None)]);
    forall i: nat | i < |s.edges|
      ensures t.edges[i] == if s.edges[i].Touches(n) && s.edges[i].deletedAt == s.nodes[n].deletedAt
          then s.edges[i].(deletedAt := None) else s.edges[i]
      ensures t.edges[i].deletedAt.None? <==> Returns(s, n, i)
    {
      ThroughRow(s.edges, n, s.nodes[n].deletedAt, i);
    }
    assert Constraints(t) <==> LiveIndexes(t.edges);
    if LiveIndexes(t.edges) {
      forall i, j | 0 <= i < j < |s.edges| && Returns(s, n, i) && Returns(s, n, j)
        ensures !Collide(s.edges[i], s.edges[j])
      {
        assert t.edges[i].deletedAt.None? && t.edges[j].deletedAt.None?;
      }
    }
  }

  /** Live once the node is restored: live already, or carrying its stamp. */
  predicate Returns(s: State, n: NodeId, i: int)
    requires n in s.nodes && 0 <= i < |s.edges|
  {
    s.edges[i].deletedAt.None? || (s.edges[i].Touches(n) && s.edges[i].deletedAt == s.nodes[n].deletedAt)
  }

  // ----- what an unguarded restore can break

  function Card(w: Id, role: NodeRole, refId: Id, deletedAt: Option<Time>): NodeRow {
    NodeRow(role, refId, Some(w), false, deletedAt)
  }

  function Wire(id: Id, from: NodeId, to: NodeId, deletedAt: Option<Time>): EdgeRow {
    EdgeRow(id, Context(Human, 1), from, to, deletedAt)
  }

  function Bare(nodes: map<NodeId, NodeRow>, edges: seq<EdgeRow>): State {
    EMPTY.(nodes := nodes, edges := edges)
  }

  /** Boards without records are as sound as their tables, their wiring and their topology. */
  lemma BareBoardSound(s: State)
    requires s == Bare(s.nodes, s.edges)
    requires EdgeKeys(s.edges) && LiveIndexes(s.edges) && EdgeReferences(s.nodes, s.edges) && NodeKeys(s.nodes)
    requires WellWired(s) && LiveEnds(s) && Acyclic(Feeds(s))
    requires forall i | 0 <= i < |s.edges| && s.edges[i].kind.Context? :: s.edges[i].kind.author == Human
    ensures Sound(s)
  {
  }

  lemma NoProducers(s: State, n: NodeId)
    requires forall i | 0 <= i < |s.edges| :: s.edges[i].kind.Context?
    ensures ProducerOf(s, n).None? && Feeds(s) == {}
  {
    NoProducerFrom(s, n, 0);
    forall i | 0 <= i < |s.edges|
      ensures WirePair(s, i).None?
    {
      NoProducerFrom(s, s.edges[i].from, 0);
    }
  }

  lemma {:induction false} NoProducerFrom(s: State, n: NodeId, i: nat)
    requires i <= |s.edges| && forall j | 0 <= j < |s.edges| :: s.edges[j].kind.Context?
    ensures ProducerFrom(s, n, i).None?
    decreases |s.edges| - i
  {
    if i < |s.edges| {
      NoProducerFrom(s, n, i + 1);
    }
  }

  lemma {:induction false} NoInputsYet(edges: seq<EdgeRow>, n: NodeId)
    requires forall i | 0 <= i < |edges| :: !(edges[i].LiveContext() && edges[i].to == n)
    ensures MaxOrdinal(edges, n).None?
  {
    if edges != [] {
      NoInputsYet(edges[..|edges| - 1], n);
    }
  }

  // A note and the command that reads it: the note goes, the command goes, the note comes back.

  function NoteAndReader(w: Id, noteGone: Option<Time>, readerGone: Option<Time>): State {
    Bare(map[1 := Card(w, Content, 1, noteGone), 2 := Card(w, Command, 2, readerGone)], [Wire(0, 1, 2, noteGone)])
  }

  lemma NoteGoes(w: Id, now: Time)
    ensures RemoveNode(NoteAndReader(w, None, None), 1, now).Done?
    ensures RemoveNode(NoteAndReader(w, None, None), 1, now).state == NoteAndReader(w, Some(now), None)
  {
    var s := NoteAndReader(w, None, None);
    RemoveNodeLands(s, 1, now);
    assert RemoveNode(s, 1, now).state.edges == [Wire(0, 1, 2, Some(now))];
  }

  lemma ReaderGoes(w: Id, now: Time)
    ensures RemoveNode(NoteAndReader(w, Some(now), None), 2, now + 1).Done?
    ensures RemoveNode(NoteAndReader(w, Some(now), None), 2, now + 1).state
        == NoteAndReader(w, Some(now), Some(now + 1))
  {
    var s := NoteAndReader(w, Some(now), None);
    RemoveNodeLands(s, 2, now + 1);
    assert RemoveNode(s, 2, now + 1).state.edges == [Wire(0, 1, 2, Some(now))];
  }

  lemma NoteReturns(w: Id, now: Time)
    ensures var s := NoteAndReader(w, Some(now), Some(now + 1));
        RestoreNode(s, 1).Done? && !LiveEnds(RestoreNode(s, 1).state)
  {
    var s := NoteAndReader(w, Some(now), Some(now + 1));
    RestoreNodeLandsIff(s, 1);
    ThroughRow(s.edges, 1, Some(now), 0);
    assert RestoreNode(s, 1).state.edges[0] == Wire(0, 1, 2, None);
  }

  lemma NoteThenReaderGo(w: Id, now: Time)
    ensures IsRun([NoteAndReader(w, None, None), NoteAndReader(w, Some(now), None),
        NoteAndReader(w, Some(now), Some(now + 1))],
                  [GRemoveNode(1, now), GRemoveNode(2, now + 1)])
  {
    NoteGoes(w, now);
    ReaderGoes(w, now);
    assert Step(NoteAndReader(w, None, None), GRemoveNode(1, now), NoteAndReader(w, Some(now), None));
    assert Step(NoteAndReader(w, Some(now), None), GRemoveNode(2, now + 1), NoteAndReader(w, Some(now), Some(now + 1)));
  }

  /** Remove a card, then its neighbour, then restore the first: a live wire to a card that is not there. */
  lemma RestoreCanDangle(w: Id, now: Time) returns (states: seq<State>, gs: seq<Gesture>)
    ensures gs == [GRemoveNode(1, now), GRemoveNode(2, now + 1)]
    ensures IsRun(states, gs) && Sound(states[0]) && Sound(states[2])
    ensures RestoreNode(states[2], 1).Done? && !LiveEnds(RestoreNode(states[2], 1).state)
  {
    NoProducers(NoteAndReader(w, None, None), 1);
    BareBoardSound(NoteAndReader(w, None, None));
    NoteThenReaderGo(w, now);
    NoteReturns(w, now);
    states := [NoteAndReader(w, None, None), NoteAndReader(w, Some(now), None),
        NoteAndReader(w, Some(now), Some(now + 1))];
    gs := [GRemoveNode(1, now), GRemoveNode(2, now + 1)];
    SoundRunsStaySound(states, gs, 2);
  }

  // Commands 1 and 2 with placeholders 11 and 12; wire 2 makes the first read the second's output, wire 3 the reverse.

  function TwoCommands(w: Id, wires: seq<EdgeRow>): State {
    Bare(map[1 := Card(w, Command, 1, None), 2 := Card(w, Command, 2, None), 11 := Card(w, Content, 11, None),
        12 := Card(w, Content, 12, None)],
          [EdgeRow(0, Provenance(CommandDeclaresOutput), 1, 11, None),
              EdgeRow(1, Provenance(CommandDeclaresOutput), 2, 12, None)] + wires)
  }

  lemma Producers(w: Id, wires: seq<EdgeRow>)
    ensures ProducerOf(TwoCommands(w, wires), 11) == Some(1) && ProducerOf(TwoCommands(w, wires), 12) == Some(2)
  {
    var s := TwoCommands(w, wires);
    assert s.edges[0] == EdgeRow(0, Provenance(CommandDeclaresOutput), 1, 11, None);
    assert s.edges[1] == EdgeRow(1, Provenance(CommandDeclaresOutput), 2, 12, None);
    assert ProducerFrom(s, 12, 1) == Some(2);
  }

  lemma OneWay(w: Id, down: Option<Time>)
    ensures Feeds(TwoCommands(w, [Wire(2, 12, 1, down)])) == if down.None? then {(1, 2)} else {}
    ensures Acyclic(Feeds(TwoCommands(w, [Wire(2, 12, 1, down)])))
  {
    var s := TwoCommands(w, [Wire(2, 12, 1, down)]);
    Producers(w, [Wire(2, 12, 1, down)]);
    assert WirePair(s, 2) == Some((1, 2)) && WirePair(s, 0).None? && WirePair(s, 1).None?;
    if Reaches(Feeds(s), 2, 1) {
      ClosedSetHoldsPath(Feeds(s), {2}, 2, 1);
    }
  }

  lemma OneWayLawful(w: Id, down: Option<Time>)
    ensures var s := TwoCommands(w, [Wire(2, 12, 1, down)]);
      Wellformed(s) && WellWired(s) && LiveEnds(s) && |s.edges| == 3 && s.edges[2] == Wire(2, 12, 1, down)
      && s.edges[0].kind.Provenance? && s.edges[1].kind.Provenance?
  {
    var s := TwoCommands(w, [Wire(2, 12, 1, down)]);
    assert s.edges[2] == Wire(2, 12, 1, down);
  }

  lemma OneWaySound(w: Id, down: Option<Time>)
    ensures Sound(TwoCommands(w, [Wire(2, 12, 1, down)]))
  {
    OneWay(w, down);
    OneWayLawful(w, down);
    var s := TwoCommands(w, [Wire(2, 12, 1, down)]);
    assert s == Bare(s.nodes, s.edges);
    hide TwoCommands, Constraints, WellWired, LiveEnds;
    BareBoardSound(s);
  }

  lemma WireGoes(w: Id, now: Time)
    ensures Step(TwoCommands(w, [Wire(2, 12, 1, None)]), GRemoveEdge(2, now),
        TwoCommands(w, [Wire(2, 12, 1, Some(now))]))
  {
    OneWaySound(w, Some(now));
    WireIsStamped(w, now);
    hide RemoveEdge, TwoCommands, Wire, WellWired, LiveEnds, Acyclic;
  }

  lemma WireIsStamped(w: Id, now: Time)
    requires Constraints(TwoCommands(w, [Wire(2, 12, 1, Some(now))]))
    ensures var s := TwoCommands(w, [Wire(2, 12, 1, None)]);
      RemoveEdge(s, 2, now) == Done(TwoCommands(w, [Wire(2, 12, 1, Some(now))]), Wire(2, 12, 1, Some(now)))
  {
    hide Constraints;
    var s := TwoCommands(w, [Wire(2, 12, 1, None)]);
    assert s.edges[2].id == 2;
    assert EdgeAt(s.edges, 2) == 2;
    assert Stamp(s.edges, {2}, Some(now)) == TwoCommands(w, [Wire(2, 12, 1, Some(now))]).edges;
  }

  lemma ReverseWireLands(w: Id, now: Time)
    ensures Step(TwoCommands(w, [Wire(2, 12, 1, Some(now))]),
        GAddContextEdge(ContextInput(None, 11, 2, Human, None), 3),
                 TwoCommands(w, [Wire(2, 12, 1, Some(now)), Wire(3, 11, 2, None)]))
  {
    var s, input := TwoCommands(w, [Wire(2, 12, 1, Some(now))]), ContextInput(None, 11, 2, Human, None);
    OneWaySound(w, Some(now));
    ReverseWireAllowed(w, now);
    ReverseWireRow(w, now);
    NewRowMeetsIndexes(s, NewWire(s, input, 3));
    hide RefuseWire, NewWire, Wire, TwoCommands, Sound;
    assert AddContextEdge(s, input, 3).Done?;
  }

  lemma ReverseWireRow(w: Id, now: Time)
    ensures var s, row := TwoCommands(w, [Wire(2, 12, 1, Some(now))]),
        NewWire(TwoCommands(w, [Wire(2, 12, 1, Some(now))]), ContextInput(None, 11, 2, Human, None), 3);
      row == Wire(3, 11, 2, None)
          && s.(edges := s.edges + [row]) == TwoCommands(w, [Wire(2, 12, 1, Some(now)), Wire(3, 11, 2, None)])
  {
    var s := TwoCommands(w, [Wire(2, 12, 1, Some(now))]);
    NoInputsYet(s.edges, 2);
    var row := NewWire(s, ContextInput(None, 11, 2, Human, None), 3);
    assert s.edges + [row] == TwoCommands(w, [Wire(2, 12, 1, Some(now)), Wire(3, 11, 2, None)]).edges;
  }

  lemma ReverseWireAllowed(w: Id, now: Time)
    ensures var s := TwoCommands(w, [Wire(2, 12, 1, Some(now))]);
      OutputChecks(s) && Rooted(s.lineage) && RefuseWire(s, ContextInput(None, 11, 2, Human, None)).None?
  {
    OneWaySound(w, Some(now));
    ReverseClosesNothing(w, now);
    hide Sound, IntroducesCycle, Acyclic;
  }

  lemma ReverseClosesNothing(w: Id, now: Time)
    ensures !IntroducesCycle(TwoCommands(w, [Wire(2, 12, 1, Some(now))]), 11, 2)
  {
    var s := TwoCommands(w, [Wire(2, 12, 1, Some(now))]);
    OneWay(w, Some(now));
    Producers(w, [Wire(2, 12, 1, Some(now))]);
    if Reaches(Feeds(s), 1, 2) {
      ClosedSetHoldsPath(Feeds(s), {1}, 1, 2);
    }
  }

  lemma BothWiresAreLawful(w: Id)
    ensures Constraints(TwoCommands(w, [Wire(2, 12, 1, None), Wire(3, 11, 2, None)]))
  {
  }

  lemma RemovedWireReturns(w: Id, now: Time)
    ensures var s := TwoCommands(w, [Wire(2, 12, 1, Some(now)), Wire(3, 11, 2, None)]);
            RestoreEdge(s, 2) == Done(TwoCommands(w, [Wire(2, 12, 1, None), Wire(3, 11, 2, None)]),
                Wire(2, 12, 1, None))
  {
    var s := TwoCommands(w, [Wire(2, 12, 1, Some(now)), Wire(3, 11, 2, None)]);
    assert s.edges[2] == Wire(2, 12, 1, Some(now));
    assert EdgeAt(s.edges, 2) == 2;
    assert Stamp(s.edges, {2}, None) == TwoCommands(w, [Wire(2, 12, 1, None), Wire(3, 11, 2, None)]).edges;
    BothWiresAreLawful(w);
  }

  lemma MutualFeeds(w: Id)
    ensures !Acyclic(Feeds(TwoCommands(w, [Wire(2, 12, 1, None), Wire(3, 11, 2, None)])))
  {
    var s := TwoCommands(w, [Wire(2, 12, 1, None), Wire(3, 11, 2, None)]);
    Producers(w, [Wire(2, 12, 1, None), Wire(3, 11, 2, None)]);
    assert WirePair(s, 2) == Some((1, 2)) && WirePair(s, 3) == Some((2, 1));
    assert (1, 2) in Feeds(s) && (2, 1) in Feeds(s);
    ReachesSelf(Feeds(s), 1);
    ReachesStep(Feeds(s), 2, 1, 1);
  }

  /** Remove a wire, wire the reverse dependency, restore the wire: two commands that feed each other. */
  lemma RestoreCanCloseCycle(w: Id, now: Time) returns (states: seq<State>, gs: seq<Gesture>)
    ensures gs == [GRemoveEdge(2, now), GAddContextEdge(ContextInput(None, 11, 2, Human, None), 3)]
    ensures IsRun(states, gs) && Sound(states[0])
    ensures RestoreEdge(states[2], 2).Done? && !Acyclic(Feeds(RestoreEdge(states[2], 2).state))
  {
    OneWaySound(w, None);
    WireGoes(w, now);
    ReverseWireLands(w, now);
    RemovedWireReturns(w, now);
    MutualFeeds(w);
    hide TwoCommands, Step, Sound, RestoreEdge, Feeds, Acyclic;
    states := [TwoCommands(w, [Wire(2, 12, 1, None)]), TwoCommands(w, [Wire(2, 12, 1, Some(now))]),
               TwoCommands(w, [Wire(2, 12, 1, Some(now)), Wire(3, 11, 2, None)])];
    gs := [GRemoveEdge(2, now), GAddContextEdge(ContextInput(None, 11, 2, Human, None), 3)];
  }

  /** Restoring a provenance row always succeeds, and clears the stamp of that row alone. */
  lemma RestoredProvenance(s: State, k: nat)
    requires Constraints(s) && k < |s.edges| && s.edges[k].kind.Provenance?
    ensures var row := s.edges[k].(deletedAt := None);
      RestoreEdge(s, s.edges[k].id) == Done(s.(edges := s.edges[k := row]), row)
  {
    assert EdgeAt(s.edges, s.edges[k].id) == k;
    var row := s.edges[k].(deletedAt := None);
    assert Stamp(s.edges, {s.edges[k].id}, None) == s.edges[k := row];
  }

  /** Removing a placeholder's card takes its provenance row down with it, and restoring that row brings it back. */
  lemma ProvenanceGoesDown(w: Id, now: Time)
    ensures var s := TwoCommands(w, []);
      var removed := RemoveNode(s, 11, now);
      && Sound(s) && removed.Done? && Sound(removed.state)
      && |removed.state.edges| == 2 && removed.state.edges[0].kind.Provenance?
      && s.edges[0].deletedAt.None? && removed.state.edges[0] == s.edges[0].(deletedAt := Some(now))
      && RestoreEdge(removed.state, s.edges[0].id)
         == Done(removed.state.(edges := removed.state.edges[0 := s.edges[0]]), s.edges[0])
  {
    var s := TwoCommands(w, []);
    NoWiresSound(w);
    RemoveNodeLands(s, 11, now);
    assert s.edges[0] == EdgeRow(0, Provenance(CommandDeclaresOutput), 1, 11, None);
    assert |RemoveNode(s, 11, now).state.edges| == |s.edges|;
    NextIsSoundIff(s, GRemoveNode(11, now));
    RestoredProvenance(RemoveNode(s, 11, now).state, 0);
    hide RemoveNode, RestoreEdge, Sound, FactsPermitted;
    assert RemoveNode(s, 11, now).state == Next(s, GRemoveNode(11, now));
  }

  lemma NoWiresSound(w: Id)
    ensures Sound(TwoCommands(w, []))
  {
    var s := TwoCommands(w, []);
    forall i | 0 <= i < |s.edges|
      ensures s.edges[i].kind.Provenance? && WirePair(s, i).None?
    {
    }
    assert Feeds(s) == {};
    BareBoardSound(s);
  }

  // Two notes and a command that reads the first: the first goes, the second takes its place in the order.

  function TwoNotes(w: Id, firstGone: Option<Time>, more: seq<EdgeRow>): State {
    Bare(map[1 := Card(w, Content, 1, firstGone), 2 := Card(w, Content, 2, None), 3 := Card(w, Command, 3, None)],
        [Wire(0, 1, 3, firstGone)] + more)
  }

  lemma TwoNotesSound(w: Id, gone: Option<Time>)
    ensures Sound(TwoNotes(w, gone, []))
  {
    NoProducers(TwoNotes(w, gone, []), 2);
    BareBoardSound(TwoNotes(w, gone, []));
  }

  lemma TwoNotesLawful(w: Id)
    ensures Constraints(TwoNotes(w, None, []))
  {
  }

  lemma FirstNoteRemoved(w: Id, now: Time)
    ensures Constraints(TwoNotes(w, None, [])) && RemoveNode(TwoNotes(w, None, []), 1, now).Done?
    ensures RemoveNode(TwoNotes(w, None, []), 1, now).state == TwoNotes(w, Some(now), [])
  {
    hide RemoveNode, Constraints;
    var s := TwoNotes(w, None, []);
    TwoNotesLawful(w);
    RemoveNodeLands(s, 1, now);
    SameElsewhere(s, now);
    var t := RemoveNode(s, 1, now).state;
    assert t.edges == TwoNotes(w, Some(now), []).edges;
    assert t.nodes == TwoNotes(w, Some(now), []).nodes;
  }

  lemma SameElsewhere(s: State, now: Time)
    ensures RemoveNode(s, 1, now).Done? ==>
      var t := RemoveNode(s, 1, now).state; t == s.(nodes := t.nodes, edges := t.edges) && |t.edges| == |s.edges|
  {
  }

  lemma FirstNoteGoes(w: Id, now: Time)
    ensures Step(TwoNotes(w, None, []), GRemoveNode(1, now), TwoNotes(w, Some(now), []))
  {
    FirstNoteRemoved(w, now);
    hide RemoveNode, TwoNotes;
  }

  lemma SecondNoteTakesItsPlace(w: Id, now: Time)
    ensures Step(TwoNotes(w, Some(now), []), GAddContextEdge(ContextInput(None, 2, 3, Human, None), 1),
                 TwoNotes(w, Some(now), [Wire(1, 2, 3, None)]))
  {
    var s := TwoNotes(w, Some(now), []);
    TwoNotesSound(w, Some(now));
    NoProducers(s, 2);
    NoInputsYet(s.edges, 3);
    var row := NewWire(s, ContextInput(None, 2, 3, Human, None), 1);
    assert row == Wire(1, 2, 3, None);
    assert s.edges + [row] == TwoNotes(w, Some(now), [Wire(1, 2, 3, None)]).edges;
    NewRowMeetsIndexes(s, row);
  }

  lemma FirstNoteIsRefused(w: Id, now: Time)
    ensures RestoreNode(TwoNotes(w, Some(now), [Wire(1, 2, 3, None)]), 1) == Refused(ConstraintViolated)
  {
    var s := TwoNotes(w, Some(now), [Wire(1, 2, 3, None)]);
    assert s.edges == [Wire(0, 1, 3, Some(now)), Wire(1, 2, 3, None)];
    RestoreNodeLandsIff(s, 1);
    assert Returns(s, 1, 0) && Returns(s, 1, 1) && Collide(s.edges[0], s.edges[1]);
  }

  /** Remove a card, let a new wire take its place in the order, and its own undo is refused. */
  lemma RestoreCanBeRefused(w: Id, now: Time) returns (states: seq<State>, gs: seq<Gesture>)
    ensures gs == [GRemoveNode(1, now), GAddContextEdge(ContextInput(None, 2, 3, Human, None), 1)]
    ensures IsRun(states, gs) && Sound(states[0])
    ensures RestoreNode(states[2], 1) == Refused(ConstraintViolated)
  {
    TwoNotesSound(w, None);
    FirstNoteGoes(w, now);
    SecondNoteTakesItsPlace(w, now);
    FirstNoteIsRefused(w, now);
    states := [TwoNotes(w, None, []), TwoNotes(w, Some(now), []), TwoNotes(w, Some(now), [Wire(1, 2, 3, None)])];
    gs := [GRemoveNode(1, now), GAddContextEdge(ContextInput(None, 2, 3, Human, None), 1)];
  }
}
