/**
 * Runs of gestures over the board, and the invariant every permitted run keeps: the facts, and a topology that stands.
 */
module BoardRuns {
  import opened Wrappers
  import opened Reachability
  import opened Edges
  import opened Lineage
  import opened Board
  import opened BoardTopology
  import opened BoardScope
  import opened BoardOrder
  import opened Gestures
  import opened BoardFacts

  /** No command feeds itself, however indirectly, and no live edge runs to a removed node. */
  ghost predicate Standing(s: State)
    requires EdgeReferences(s.nodes, s.edges)
  {
    Acyclic(Feeds(s)) && LiveEnds(s)
  }

  /** Everything the board promises at once. */
  ghost predicate Sound(s: State) {
    FactsHold(s) && Standing(s)
  }

  lemma EmptyIsSound()
    ensures Sound(EMPTY)
  {
  }

  // ----- what a caller has to see to

  ghost predicate RestoreEdgePermitted(s: State, id: Id)
    requires Constraints(s)
  {
    var k := EdgeAt(s.edges, id);
    k < |s.edges| ==>
      && EndsLive(s, s.edges[k])
      && (s.edges[k].deletedAt.None? || WirePair(s, k).None?
          || !Reaches(Feeds(s), WirePair(s, k).value.1, WirePair(s, k).value.0))
  }

  ghost predicate RestoreNodePermitted(s: State, n: NodeId)
    requires Constraints(s) && n in s.nodes
  {
    s.nodes[n].deletedAt.Some? ==>
      forall i: nat | i < |s.edges| && s.edges[i].Touches(n) && s.edges[i].deletedAt == s.nodes[n].deletedAt ::
        && (s.edges[i].from == n || s.nodes[s.edges[i].from].deletedAt.None?)
        && (s.edges[i].to == n || s.nodes[s.edges[i].to].deletedAt.None?)
        && (WirePair(s, i).Some? ==> !Reaches(Feeds(s), WirePair(s, i).value.1, WirePair(s, i).value.0))
  }

  ghost predicate RecordProvenancePermitted(s: State, from: NodeId, to: NodeId, relation: ProvenanceKind, freshId: Id)
  {
    ProvenanceAt(s.edges, from, to, relation) == |s.edges| ==>
      var row := EdgeRow(freshId, Provenance(relation), from, to, None);
      var behind := CommandBehind(s, from);
      behind.None? || forall c | c in Rehung(s, row) :: !Reaches(Untouched(s, row), behind.value, c)
  }

  /** The placeholder's provenance, when both the command's node and the output's were on the board before. */
  ghost predicate DeclarationPermitted(s: State, g: Instantiation) {
    g.outcome.Some? ==>
      match (NodeFor(s, Command, g.command), NodeFor(s, Content, g.outcome.value.output))
      case (Some(p), Some(o)) => RecordProvenancePermitted(s, p, o, CommandDeclaresOutput, g.outcome.value.edge)
      case _ => true
  }

  /** What a gesture that revives rows or names a producer must see to for the topology to stand. */
  ghost predicate StandingPermitted(s: State, g: Gesture)
    requires Wellformed(s)
  {
    match g
    case GRestoreEdge(id) => RestoreEdge(s, id).Done? ==> RestoreEdgePermitted(s, id)
    case GRestoreNode(n) => RestoreNode(s, n).Done? ==> RestoreNodePermitted(s, n)
    case GRecordProvenance(from, to, relation, freshId) =>
      RecordProvenance(s, from, to, relation, freshId).Done? ==>
        RecordProvenancePermitted(s, from, to, relation, freshId)
    case GInstantiate(instance) => Instantiate(s, instance).Done? ==> DeclarationPermitted(s, instance)
    case _ => true
  }

  /** Conditions a caller can check first; every other gesture may be made at any time. */
  ghost predicate Permitted(s: State, g: Gesture)
    requires Wellformed(s)
  {
    FactsPermitted(s, g) && StandingPermitted(s, g)
  }

  /** Membership in the set a removal or restoration stamps, row by row. */
  lemma ThroughRow(edges: seq<EdgeRow>, n: NodeId, at: Option<Time>, i: nat)
    requires EdgeKeys(edges) && i < |edges|
    ensures edges[i].id in Through(edges, n, at) <==> edges[i].Touches(n) && edges[i].deletedAt == at
  {
    if edges[i].id in Through(edges, n, at) {
      var j :| 0 <= j < |edges| && edges[j].id == edges[i].id && edges[j].Touches(n) && edges[j].deletedAt == at;
      assert i == j;
    }
  }

  // ----- gestures that revive nothing

  /** A gesture that revives no wire and takes no card away leaves the topology standing. */
  lemma StandingFrame(s: State, t: State)
    requires EdgeReferences(s.nodes, s.edges) && EdgeReferences(t.nodes, t.edges) && Standing(s)
    requires Extends(s, t) && |s.edges| == |t.edges| && LiveRows(t) <= LiveRows(s)
    requires forall i | 0 <= i < |t.edges| && t.edges[i].deletedAt.None? ::
               EndsLive(s, s.edges[i]) ==> EndsLive(t, t.edges[i])
    ensures Standing(t)
  {
    FewerWiresKeepAcyclic(s, t);
    forall i | 0 <= i < |t.edges| && t.edges[i].deletedAt.None?
      ensures EndsLive(t, t.edges[i])
    {
      assert i in LiveRows(t);
      assert EndsLive(s, s.edges[i]);
    }
  }

  /** The same rows over nodes that are all still there and alive. */
  lemma SameRowsStand(s: State, t: State)
    requires EdgeReferences(s.nodes, s.edges) && Standing(s) && t.edges == s.edges
    requires forall n | n in s.nodes :: n in t.nodes && t.nodes[n] == s.nodes[n].(running := t.nodes[n].running)
    ensures EdgeReferences(t.nodes, t.edges) && Standing(t)
  {
    assert forall i | 0 <= i < |s.edges| :: SameFact(s.edges[i], t.edges[i]);
    StandingFrame(s, t);
  }

  predicate WritesNoRow(g: Gesture) {
    g.GPlace? || g.GSetRunning? || WritesObjects(g) || WritesOutputs(g) || g.GRecordLineage?
  }

  lemma NoRowStands(s: State, g: Gesture)
    requires Sound(s) && WritesNoRow(g)
    ensures EdgeReferences(Next(s, g).nodes, Next(s, g).edges) && Standing(Next(s, g))
  {
    NoRowWritten(s, g);
    hide Next, FactsHold;
    SameRowsStand(s, Next(s, g));
  }

  lemma NoRowWritten(s: State, g: Gesture)
    requires Wellformed(s) && WritesNoRow(g)
    ensures var t := Next(s, g);
      t.edges == s.edges
      && forall n | n in s.nodes :: n in t.nodes && t.nodes[n] == s.nodes[n].(running := t.nodes[n].running)
  {
    hide Constraints, Rooted;
    if WritesObjects(g) || WritesOutputs(g) || g.GRecordLineage? {
      RecordsOnly(s, g);
    }
  }

  lemma RecordsOnly(s: State, g: Gesture)
    requires Wellformed(s) && (WritesObjects(g) || WritesOutputs(g) || g.GRecordLineage?)
    ensures Next(s, g).edges == s.edges && Next(s, g).nodes == s.nodes
  {
    hide Constraints, Rooted;
  }

  lemma ReorderStands(s: State, n: NodeId, ids: seq<Id>)
    requires Sound(s) && ReorderContextInputs(s, n, ids).Done?
    ensures var t := ReorderContextInputs(s, n, ids).state;
      EdgeReferences(t.nodes, t.edges) && Standing(t)
  {
    var t := ReorderContextInputs(s, n, ids).state;
    ReorderOutcome(s, n, ids);
    forall i: nat | i < |s.edges|
      ensures SameFact(s.edges[i], t.edges[i]) && t.edges[i].deletedAt == s.edges[i].deletedAt
    {
      ReorderKeepsRow(s, n, ids, i);
    }
    assert |t.edges| == |s.edges|;
    StandingFrame(s, t);
  }

  lemma RemoveEdgeStands(s: State, id: Id, now: Time)
    requires Sound(s) && RemoveEdge(s, id, now).Done?
    ensures Standing(RemoveEdge(s, id, now).state)
  {
    StampExtends(s, RemoveEdge(s, id, now).state, {id}, Some(now));
    StandingFrame(s, RemoveEdge(s, id, now).state);
  }

  lemma RemoveNodeStands(s: State, n: NodeId, now: Time)
    requires Sound(s) && RemoveNode(s, n, now).Done?
    ensures Standing(RemoveNode(s, n, now).state)
  {
    if s.nodes[n].deletedAt.None? {
      RemoveNodeExtends(s, n, now);
      WiresGoDown(s, n, now);
      StandingFrame(s, RemoveNode(s, n, now).state);
    }
  }

  lemma WiresGoDown(s: State, n: NodeId, now: Time)
    ensures forall i | 0 <= i < |s.edges| && s.edges[i].Touches(n) ::
        Stamp(s.edges, Through(s.edges, n, None), Some(now))[i].deletedAt.Some?
  {
    forall i | 0 <= i < |s.edges| && s.edges[i].Touches(n) && s.edges[i].deletedAt.None?
      ensures s.edges[i].id in Through(s.edges, n, None)
    {
    }
  }

  // ----- new rows

  lemma NewRowKeepsLiveEnds(s: State, row: EdgeRow)
    requires EdgeReferences(s.nodes, s.edges) && LiveEnds(s) && row.from in s.nodes && row.to in s.nodes
        && EndsLive(s, row)
    ensures var t := s.(edges := s.edges + [row]); EdgeReferences(t.nodes, t.edges) && LiveEnds(t)
  {
    var t := s.(edges := s.edges + [row]);
    forall i | 0 <= i < |t.edges|
      ensures t.edges[i] == if i < |s.edges| then s.edges[i] else row
    {
    }
  }

  lemma AddContextEdgeStands(s: State, input: ContextInput, freshId: Id)
    requires Wellformed(s) && Standing(s) && AddContextEdge(s, input, freshId).Done?
    ensures Standing(AddContextEdge(s, input, freshId).state)
  {
    AddContextEdgeKeepsAcyclic(s, input, freshId);
    if AddContextEdge(s, input, freshId).state != s {
      NewRowKeepsLiveEnds(s, NewWire(s, input, freshId));
    }
  }

  lemma RecordProvenanceStandsIff(s: State, from: NodeId, to: NodeId, relation: ProvenanceKind, freshId: Id)
    requires Constraints(s) && Standing(s) && RecordProvenance(s, from, to, relation, freshId).Done?
    ensures LiveEnds(RecordProvenance(s, from, to, relation, freshId).state)
    ensures Acyclic(Feeds(RecordProvenance(s, from, to, relation, freshId).state))
      <==> RecordProvenancePermitted(s, from, to, relation, freshId)
  {
    if ProvenanceAt(s.edges, from, to, relation) == |s.edges| {
      var row := EdgeRow(freshId, Provenance(relation), from, to, None);
      RecordedProvenanceAcyclicIff(s, row);
      NewRowKeepsLiveEnds(s, row);
    }
  }

  // ----- restores

  lemma RestoreEdgeStandsIff(s: State, id: Id)
    requires Sound(s) && RestoreEdge(s, id).Done?
    ensures Standing(RestoreEdge(s, id).state) <==> RestoreEdgePermitted(s, id)
  {
    RestoreEdgeAcyclicIff(s, id);
    RestoreEdgeLiveEndsIff(s, id);
  }

  lemma RestoreNodeStandsIff(s: State, n: NodeId)
    requires Sound(s) && RestoreNode(s, n).Done?
    ensures Standing(RestoreNode(s, n).state) <==> RestoreNodePermitted(s, n)
  {
    if s.nodes[n].deletedAt.Some? {
      var t := RestoreNode(s, n).state;
      RestoreNodeLiveEndsIff(s, n);
      RestoreNodeAcyclicIff(s, n);
      RevivedRows(s, n);
      RestoreNodeConditions(s, n, Revived(s, t));
    }
  }

  /** The condition of a restore, taken apart: live neighbours, and no returning wire that closes a walk. */
  lemma RestoreNodeConditions(s: State, n: NodeId, back: Relation)
    requires Constraints(s) && n in s.nodes && s.nodes[n].deletedAt.Some?
    requires forall x :: x in back <==>
               exists i: nat | i < |s.edges| && s.edges[i].Touches(n) && s.edges[i].deletedAt == s.nodes[n].deletedAt ::
                   WirePair(s, i) == Some(x)
    ensures RestoreNodePermitted(s, n) <==>
            && (forall x | x in back :: !Reaches(Feeds(s), x.1, x.0))
            && (forall i | 0 <= i < |s.edges| && s.edges[i].Touches(n)
                && s.edges[i].deletedAt == s.nodes[n].deletedAt ::
                  && (s.edges[i].from == n || s.nodes[s.edges[i].from].deletedAt.None?)
                  && (s.edges[i].to == n || s.nodes[s.edges[i].to].deletedAt.None?))
  {
    if RestoreNodePermitted(s, n) {
      forall x | x in back
        ensures !Reaches(Feeds(s), x.1, x.0)
      {
        var i: nat :| i < |s.edges| && s.edges[i].Touches(n) && s.edges[i].deletedAt == s.nodes[n].deletedAt
            && WirePair(s, i) == Some(x);
      }
    }
  }

  /** A restored node revives exactly the rows through it that carry its stamp. */
  lemma RevivedRows(s: State, n: NodeId)
    requires Constraints(s) && RestoreNode(s, n).Done? && s.nodes[n].deletedAt.Some?
    ensures forall x :: x in Revived(s, RestoreNode(s, n).state) <==>
              exists i: nat | i < |s.edges| && s.edges[i].Touches(n) && s.edges[i].deletedAt == s.nodes[n].deletedAt ::
                WirePair(s, i) == Some(x)
  {
    RevivedByStamp(s, RestoreNode(s, n).state, n, s.nodes[n].deletedAt);
  }

  lemma RevivedByStamp(s: State, t: State, n: NodeId, at: Option<Time>)
    requires EdgeKeys(s.edges) && at.Some? && t.edges == Stamp(s.edges, Through(s.edges, n, at), None)
    ensures forall i: nat ::
        i in LiveRows(t) - LiveRows(s) <==> i < |s.edges| && s.edges[i].Touches(n) && s.edges[i].deletedAt == at
    ensures forall x :: x in Revived(s, t) <==>
              exists i: nat | i < |s.edges| && s.edges[i].Touches(n) && s.edges[i].deletedAt == at ::
                  WirePair(s, i) == Some(x)
  {
    forall i: nat | i < |s.edges|
      ensures s.edges[i].id in Through(s.edges, n, at) <==> s.edges[i].Touches(n) && s.edges[i].deletedAt == at
    {
      ThroughRow(s.edges, n, at, i);
    }
  }

  // ----- instantiation

  lemma {:induction false} WireAllStands(s: State, to: NodeId, author: Author, context: seq<(NodeId, Id)>, k: nat)
    requires Wellformed(s) && LiveEnds(s) && k <= |context| && WireAll(s, to, author, context, k).Done?
    ensures Acyclic(Feeds(s)) ==> Standing(WireAll(s, to, author, context, k).state)
    ensures Acyclic(Feeds(WireAll(s, to, author, context, k).state)) ==> Acyclic(Feeds(s))
  {
    hide AddContextEdge, Constraints, Rooted;
    if k > 0 {
      WireAllStands(s, to, author, context, k - 1);
      var s1 := WireAll(s, to, author, context, k - 1).state;
      var input := ContextInput(None, context[k - 1].0, to, author, None);
      if Acyclic(Feeds(s)) {
        AddContextEdgeStands(s1, input, context[k - 1].1);
      }
      CyclesStay(s1, input, context[k - 1].1);
    }
  }

  lemma CyclesStay(s: State, input: ContextInput, freshId: Id)
    requires Wellformed(s) && AddContextEdge(s, input, freshId).Done?
    ensures Acyclic(Feeds(AddContextEdge(s, input, freshId).state)) ==> Acyclic(Feeds(s))
  {
    var t := AddContextEdge(s, input, freshId).state;
    if t != s {
      FeedsAppendedContext(s, NewWire(s, input, freshId));
      if Acyclic(Feeds(t)) {
        AcyclicSubset(Feeds(s), Feeds(t));
      }
    }
  }

  /** Over the same nodes and rows, late provenance has the same condition. */
  lemma SameRowsSamePermission(s: State, t: State, from: NodeId, to: NodeId, relation: ProvenanceKind, freshId: Id)
    requires EdgeReferences(s.nodes, s.edges) && t.nodes == s.nodes && t.edges == s.edges
    ensures RecordProvenancePermitted(t, from, to, relation, freshId)
      <==> RecordProvenancePermitted(s, from, to, relation, freshId)
  {
    var row := EdgeRow(freshId, Provenance(relation), from, to, None);
    var s', t' := s.(edges := s.edges + [row]), t.(edges := t.edges + [row]);
    SameBehind(s, t, from);
    forall i: nat | i < |s.edges|
      ensures WirePair(t, i) == WirePair(s, i)
      ensures ProducerOf(t', t.edges[i].from) == ProducerOf(s', s.edges[i].from)
      ensures ProducerOf(t, t.edges[i].from) == ProducerOf(s, s.edges[i].from)
    {
      SameProducer(s, t, s.edges[i].from, 0);
      SameProducer(s', t', s.edges[i].from, 0);
    }
    assert Retargeted(t, row) == Retargeted(s, row);
    assert LiveRows(t) == LiveRows(s);
    assert Rehung(t, row) == Rehung(s, row);
    assert Untouched(t, row) == Untouched(s, row);
  }

  lemma {:induction false} SameStart(s: State, t: State, session: NodeId, i: nat)
    requires t.nodes == s.nodes && t.edges == s.edges && i <= |s.edges|
    ensures StartingCommand(t, session, i) == StartingCommand(s, session, i)
    decreases |s.edges| - i
  {
    if i < |s.edges| {
      SameStart(s, t, session, i + 1);
    }
  }

  lemma SameBehind(s: State, t: State, source: NodeId)
    requires t.nodes == s.nodes && t.edges == s.edges
    ensures CommandBehind(t, source) == CommandBehind(s, source)
  {
    SameStart(s, t, source, 0);
  }

  lemma {:induction false} SameProducer(s: State, t: State, content: NodeId, i: nat)
    requires t.nodes == s.nodes && t.edges == s.edges && i <= |s.edges|
    ensures ProducerFrom(t, content, i) == ProducerFrom(s, content, i)
    decreases |s.edges| - i
  {
    if i < |s.edges| {
      SameBehind(s, t, s.edges[i].from);
      SameProducer(s, t, content, i + 1);
    }
  }

  /** A command that nothing is wired into depends on nothing, so content may be hung on it. */
  lemma UnwiredCommandMayProduce(s: State, p: NodeId, o: NodeId, relation: ProvenanceKind, freshId: Id)
    requires EdgeReferences(s.nodes, s.edges) && RoleOf(s, p) == Some(Command)
    requires forall i | 0 <= i < |s.edges| :: s.edges[i].to != p
    ensures RecordProvenancePermitted(s, p, o, relation, freshId)
  {
    var row := EdgeRow(freshId, Provenance(relation), p, o, None);
    var kept := Untouched(s, row);
    forall c | c in Rehung(s, row)
      ensures !Reaches(kept, p, c)
    {
      if Reaches(kept, p, c) {
        ClosedSetHoldsPath(kept, {p}, p, c);
      }
    }
  }

  lemma UnwiredContentMayBeProduced(s: State, p: NodeId, o: NodeId, relation: ProvenanceKind, freshId: Id)
    requires EdgeReferences(s.nodes, s.edges) && RoleOf(s, o) == Some(Content)
    requires forall i | 0 <= i < |s.edges| :: s.edges[i].from != o
    ensures RecordProvenancePermitted(s, p, o, relation, freshId)
  {
    var row := EdgeRow(freshId, Provenance(relation), p, o, None);
    forall i: nat | i < |s.edges|
      ensures i !in Retargeted(s, row)
    {
      ProducerAppended(s, row, s.edges[i].from, 0);
    }
    assert Rehung(s, row) == {};
  }

  /** Placing returns the node the board already had for this subject, or adds one. */
  lemma PlaceFinds(s: State, role: NodeRole, refId: Id, workstream: Option<Id>, node: NodeId)
    requires NodeKeys(s.nodes) && Place(s, role, refId, workstream, false, node).Done?
    ensures var n, t := Place(s, role, refId, workstream, false, node).value,
        Place(s, role, refId, workstream, false, node).state;
      && NodeFor(s, role, refId) == (if n in s.nodes then Some(n) else None)
      && n in t.nodes && t.nodes[n].role == role && t.nodes[n].refId == refId
      && t == s.(nodes := if n in s.nodes then s.nodes else s.nodes[n := t.nodes[n]])
  {
    hide Constraints, MayCross;
  }

  /** Another node for another subject changes nothing about which node stands for this one. */
  lemma NodeForStays(s: State, t: State, role: NodeRole, refId: Id)
    requires NodeKeys(t.nodes) && forall n | n in s.nodes :: n in t.nodes && t.nodes[n] == s.nodes[n]
    requires forall n | n in t.nodes && t.nodes[n].role == role && t.nodes[n].refId == refId :: n in s.nodes
    ensures NodeFor(t, role, refId) == NodeFor(s, role, refId)
  {
    if NodeFor(t, role, refId).Some? {
      var n := NodeFor(t, role, refId).value;
      assert n in s.nodes && s.nodes[n].role == role;
    }
  }

  /** The tables as the placeholder's provenance finds them, and the two nodes it joins. */
  datatype Declaring = Declaring(state: State, p: NodeId, o: NodeId)

  ghost function DeclaringOf(s: State, g: Instantiation): Declaring
    requires g.outcome.Some? && Wellformed(s) && Instantiate(s, g).Done?
  {
    var d := g.outcome.value;
    var s1 := InsertCommand(s, g.command, g.workstream).state;
    var p := Place(s1, Command, g.command, Some(g.workstream), false, g.node);
    var s3 := InsertOutput(p.state, d.output, g.command).state;
    var o := Place(s3, Content, d.output, Some(s3.commands[g.command].workstream), false, d.node);
    Declaring(o.state, p.value, o.value)
  }

  /** Either node is the one the board already had, or is new; and no row has been written yet. */
  lemma DeclaringNodes(s: State, g: Instantiation)
    requires Wellformed(s) && g.outcome.Some? && Instantiate(s, g).Done?
    ensures var d, t := DeclaringOf(s, g), DeclaringOf(s, g).state;
      && Constraints(t) && t.edges == s.edges && t.lineage == s.lineage
      && (forall n | n in s.nodes :: n in t.nodes && t.nodes[n] == s.nodes[n])
      && RoleOf(t, d.p) == Some(Command) && RoleOf(t, d.o) == Some(Content)
      && NodeFor(s, Command, g.command) == (if d.p in s.nodes then Some(d.p) else None)
      && NodeFor(s, Content, g.outcome.value.output) == (if d.o in s.nodes then Some(d.o) else None)
      && (d.p in s.nodes && d.o in s.nodes ==> t.nodes == s.nodes)
  {
    DeclaringSteps(s, g);
    hide Rooted, Instantiate, OutputChecks, ObjectChecks, LiveIndexes;
    var d := g.outcome.value;
    var s1 := InsertCommand(s, g.command, g.workstream).state;
    var p := Place(s1, Command, g.command, Some(g.workstream), false, g.node);
    var s3 := InsertOutput(p.state, d.output, g.command).state;
    PlaceFinds(s1, Command, g.command, Some(g.workstream), g.node);
    PlaceFinds(s3, Content, d.output, Some(s3.commands[g.command].workstream), d.node);
    hide Place, InsertCommand, InsertOutput;
    NodeForStays(s, s1, Command, g.command);
    NodeForStays(s, s3, Content, d.output);
  }

  /** The records written first, the placements between them, and that each of these goes through. */
  lemma DeclaringSteps(s: State, g: Instantiation)
    requires Wellformed(s) && g.outcome.Some? && Instantiate(s, g).Done?
    ensures var d := g.outcome.value;
      var s1 := InsertCommand(s, g.command, g.workstream).state;
      var p := Place(s1, Command, g.command, Some(g.workstream), false, g.node);
      && s1.nodes == s.nodes && s1.edges == s.edges && s1.lineage == s.lineage && NodeKeys(s1.nodes) && p.Done?
      && p.state.edges == s.edges && p.state.lineage == s.lineage
      && var s3 := InsertOutput(p.state, d.output, g.command).state;
         && s3.nodes == p.state.nodes && s3.edges == s.edges && s3.lineage == s.lineage && NodeKeys(s3.nodes)
         && g.command in s3.commands
         && var o := Place(s3, Content, d.output, Some(s3.commands[g.command].workstream), false, d.node);
            o.Done? && Constraints(o.state) && o.state.edges == s.edges && o.state.lineage == s.lineage
  {
    hide Rooted, LiveIndexes, EdgeReferences, ObjectChecks, NodeFor;
  }

  /**
   * At that point the topology stands, and the provenance to come is permitted exactly as it was before the gesture.
   */
  lemma DeclarationIsProvenance(s: State, g: Instantiation)
    requires Sound(s) && g.outcome.Some? && Instantiate(s, g).Done?
    ensures var d, t := DeclaringOf(s, g), DeclaringOf(s, g).state;
      && EdgeReferences(t.nodes, t.edges) && Standing(t)
      && (RecordProvenancePermitted(t, d.p, d.o, CommandDeclaresOutput, g.outcome.value.edge)
          <==> DeclarationPermitted(s, g))
  {
    DeclaringNodes(s, g);
    var d, t, id := DeclaringOf(s, g), DeclaringOf(s, g).state, g.outcome.value.edge;
    hide DeclaringOf, FactsHold, Instantiate;
    SameRowsStand(s, t);
    if d.p !in s.nodes {
      UnwiredCommandMayProduce(t, d.p, d.o, CommandDeclaresOutput, id);
    } else if d.o !in s.nodes {
      UnwiredContentMayBeProduced(t, d.p, d.o, CommandDeclaresOutput, id);
    } else {
      SameRowsSamePermission(s, t, d.p, d.o, CommandDeclaresOutput, id);
    }
  }

  /** After the placeholder, or without one, the command's wires are drawn: they close no cycle, and open none. */
  lemma InstantiateStandsIff(s: State, g: Instantiation)
    requires Sound(s) && Instantiate(s, g).Done? && FactsHold(Instantiate(s, g).state)
    ensures Standing(Instantiate(s, g).state) <==> DeclarationPermitted(s, g)
  {
    var placed := Place(InsertCommand(s, g.command, g.workstream).state, Command, g.command, Some(g.workstream), false,
        g.node);
    if g.outcome.Some? {
      DeclarationIsProvenance(s, g);
      var d := DeclaringOf(s, g);
      var declared := RecordProvenance(d.state, d.p, d.o, CommandDeclaresOutput, g.outcome.value.edge);
      assert d.p == placed.value
          && DeclareOutput(placed.state, g.command, placed.value, g.outcome.value) == Done(declared.state, ());
      RecordProvenanceStandsIff(d.state, d.p, d.o, CommandDeclaresOutput, g.outcome.value.edge);
      assert Instantiate(s, g).state == WireAll(declared.state, placed.value, g.author, g.context, |g.context|).state;
      hide Instantiate, FactsHold, DeclareOutput, Place, RecordProvenance, InsertCommand, DeclaringOf,
          DeclarationPermitted;
      WireAllStands(declared.state, placed.value, g.author, g.context, |g.context|);
    } else {
      PlacedCommandStands(s, g);
      assert Instantiate(s, g).state == WireAll(placed.state, placed.value, g.author, g.context, |g.context|).state;
      hide Instantiate, FactsHold, Place, InsertCommand;
      WireAllStands(placed.state, placed.value, g.author, g.context, |g.context|);
    }
  }

  lemma PlacedCommandStands(s: State, g: Instantiation)
    requires Sound(s) && Instantiate(s, g).Done?
    ensures var t := Place(InsertCommand(s, g.command, g.workstream).state, Command, g.command, Some(g.workstream),
        false, g.node).state;
      Wellformed(t) && Standing(t)
  {
    var s1 := InsertCommand(s, g.command, g.workstream).state;
    assert Constraints(s1) && s1.nodes == s.nodes && s1.edges == s.edges;
    PlaceFinds(s1, Command, g.command, Some(g.workstream), g.node);
    var t := Place(s1, Command, g.command, Some(g.workstream), false, g.node).state;
    hide Place, InsertCommand, Instantiate, FactsHold;
    SameRowsStand(s, t);
  }

  /** The ids a new command and its placeholder are given name nothing yet. */
  ghost predicate FreshlyNamed(s: State, g: Instantiation) {
    && NodeFor(s, Command, g.command).None?
    && (g.outcome.Some? ==> forall n | n in s.nodes :: s.nodes[n].refId != g.outcome.value.output)
  }

  /** Generated ids always qualify. */
  lemma InstantiateKeepsSound(s: State, g: Instantiation)
    requires Sound(s) && FreshlyNamed(s, g)
    ensures Sound(Settle(s, Instantiate(s, g)))
  {
    NextIsSoundIff(s, GInstantiate(g));
    hide FactsHold, Standing, Instantiate;
    assert EdgeReferences(s.nodes, s.edges) ==> InstantiatePermitted(s, g);
    assert Permitted(s, GInstantiate(g));
  }

  // ----- whole runs

  /** A gesture keeps everything the board promises exactly when its caller saw to its condition. */
  lemma NextIsSoundIff(s: State, g: Gesture)
    requires Sound(s)
    ensures Sound(Next(s, g)) <==> Permitted(s, g)
  {
    NextKeepsFactsIff(s, g);
    if FactsPermitted(s, g) {
      NextStandsIff(s, g);
    }
    hide FactsHold, FactsPermitted, StandingPermitted, Next;
  }

  lemma NextStandsIff(s: State, g: Gesture)
    requires Sound(s) && FactsHold(Next(s, g))
    ensures Standing(Next(s, g)) <==> StandingPermitted(s, g)
  {
    hide WellWired, ScopeSafe, ChainSafe, Standing, Place, AddContextEdge, RecordProvenance, RemoveNode, RestoreNode;
    hide RestoreEdgePermitted, RestoreNodePermitted, RecordProvenancePermitted, DeclarationPermitted, Instantiate;
    match g
    case GAddContextEdge(input, freshId) =>
      if AddContextEdge(s, input, freshId).Done? { AddContextEdgeStands(s, input, freshId); }
    case GRecordProvenance(from, to, relation, freshId) => LateProvenanceStandsIff(s, from, to, relation, freshId);
    case GReorder(node, ids) => if ReorderContextInputs(s, node, ids).Done? { ReorderStands(s, node, ids); }
    case GRemoveEdge(edge, now) => if RemoveEdge(s, edge, now).Done? { RemoveEdgeStands(s, edge, now); }
    case GRestoreEdge(edge) => if RestoreEdge(s, edge).Done? { RestoreEdgeStandsIff(s, edge); }
    case GRemoveNode(node, now) => if RemoveNode(s, node, now).Done? { RemoveNodeStands(s, node, now); }
    case GRestoreNode(node) => if RestoreNode(s, node).Done? { RestoreNodeStandsIff(s, node); }
    case GInstantiate(instance) => if Instantiate(s, instance).Done? { InstantiateStandsIff(s, instance); }
    case _ => NoRowStands(s, g);
  }

  lemma LateProvenanceStandsIff(s: State, from: NodeId, to: NodeId, relation: ProvenanceKind, freshId: Id)
    requires Sound(s) && FactsHold(Settle(s, RecordProvenance(s, from, to, relation, freshId)))
    ensures Standing(Settle(s, RecordProvenance(s, from, to, relation, freshId)))
      <==> (RecordProvenance(s, from, to, relation, freshId).Done? ==>
          RecordProvenancePermitted(s, from, to, relation, freshId))
  {
    if RecordProvenance(s, from, to, relation, freshId).Done? {
      RecordProvenanceStandsIff(s, from, to, relation, freshId);
    }
  }

  /** `t` is what `g` makes of `s`, and the caller saw to the gesture's condition. */
  ghost predicate Step(s: State, g: Gesture, t: State) {
    Wellformed(s) ==> Permitted(s, g) && t == Next(s, g)
  }

  /** A run visits `states` in turn, one gesture between each and the next. */
  ghost predicate IsRun(states: seq<State>, gs: seq<Gesture>) {
    |states| == |gs| + 1 && forall k: nat | k < |gs| :: Step(states[k], gs[k], states[k + 1])
  }

  /** Whatever was once sound stays sound: at every point of every run. */
  lemma {:induction false} SoundRunsStaySound(states: seq<State>, gs: seq<Gesture>, k: nat)
    requires IsRun(states, gs) && Sound(states[0]) && k <= |gs|
    ensures Sound(states[k])
  {
    if k > 0 {
      SoundRunsStaySound(states, gs, k - 1);
      assert Step(states[k - 1], gs[k - 1], states[k]);
      NextIsSoundIff(states[k - 1], gs[k - 1]);
    }
  }

  lemma EveryRunIsSound(states: seq<State>, gs: seq<Gesture>, k: nat)
    requires IsRun(states, gs) && states[0] == EMPTY && k <= |gs|
    ensures Sound(states[k])
  {
    EmptyIsSound();
    SoundRunsStaySound(states, gs, k);
  }

  /**
   * A wire drawn without an ordinal of its own lands exactly when both cards are on the board, the connection is one of
   * the two legal kinds, the content may be used there and is no broken placeholder, the author does not write into its
   * own chain, the wire is new, and no command comes to feed itself. The unique indexes never refuse it.
   */
  lemma WireLandsIff(s: State, from: NodeId, to: NodeId, author: Author, freshId: Id)
    requires Wellformed(s) && Acyclic(Feeds(s)) && EdgeAt(s.edges, freshId) == |s.edges|
    ensures AddContextEdge(s, ContextInput(None, from, to, author, None), freshId).Done? <==>
            && from in s.nodes && to in s.nodes && s.nodes[from].deletedAt.None? && s.nodes[to].deletedAt.None?
            && s.nodes[from].role.Content?
            && (s.nodes[to].role.Command? || (s.nodes[to].role.Session? && s.nodes[to].running))
            && MayReach(s, s.nodes[from].refId, s.nodes[to].workstream)
            && (s.nodes[from].refId in s.outputs ==> s.outputs[s.nodes[from].refId].brokenAt.None?)
            && MayAuthor(s.lineage, author, if s.nodes[to].role.Session? then Some(s.nodes[to].refId) else None)
            && !AlreadyWired(s.edges, from, to)
            && Acyclic(Feeds(s.(edges := s.edges
                + [EdgeRow(freshId, Context(author, NextOrdinal(s.edges, to)), from, to, None)])))
  {
    var input := ContextInput(None, from, to, author, None);
    var row := NewWire(s, input, freshId);
    if from in s.nodes && to in s.nodes {
      CheckSourceIff(s, s.nodes[from].refId, s.nodes[to].workstream);
      if RefuseEarly(s, input).None? {
        NewRowMeetsIndexes(s, row);
        if s.nodes[to].role.Command? {
          WireClosesCycleIffRefused(s, row);
        } else {
          FeedsAppendedContext(s, row);
          assert Feeds(s) + {} == Feeds(s);
        }
      }
    }
  }

  lemma NewRowMeetsIndexes(s: State, row: EdgeRow)
    requires Constraints(s) && EdgeAt(s.edges, row.id) == |s.edges| && row.LiveContext()
    requires row.from in s.nodes && row.to in s.nodes && !AlreadyWired(s.edges, row.from, row.to)
    requires row.kind.ordinal == NextOrdinal(s.edges, row.to)
    ensures Constraints(s.(edges := s.edges + [row]))
  {
    var edges := s.edges + [row];
    forall i | 0 <= i < |edges|
      ensures edges[i] == if i < |s.edges| then s.edges[i] else row
    {
    }
  }
}
