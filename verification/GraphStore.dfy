/**
 * The board's tables as mutable state, and the store that carries the gestures out on them
 * (packages/db/src/graph-store.ts).
 */
module GraphStore {
  import opened Wrappers
  import opened Edges
  import opened Lineage
  import opened Board
  import opened BoardProducers

  class Database {
    var nodes: map<NodeId, NodeRow>
    var edges: seq<EdgeRow>
    var objects: map<Id, ObjectRow>
    var commands: map<Id, CommandRow>
    var outputs: map<Id, OutputRow>
    var sessions: map<SessionId, Option<Time>>
    var lineage: LineageTable

    ghost function Tables(): State
      reads this
    {
      State(nodes, edges, objects, commands, outputs, sessions, lineage)
    }

    /** The schema's constraints hold, and no session is its own parent. */
    ghost predicate Valid()
      reads this
    {
      Constraints(Tables()) && Rooted(lineage)
    }

    constructor ()
      ensures Tables() == EMPTY && Valid()
    {
      nodes, edges, objects, commands, outputs, sessions, lineage := map[], [], map[], map[], map[], map[], [];
    }

    /** One transaction over the board: both tables take the new rows, or the schema refuses and neither does. */
    method Write(nodes': map<NodeId, NodeRow>, edges': seq<EdgeRow>) returns (ok: bool)
      modifies this`nodes, this`edges
      ensures ok <==> Constraints(old(Tables()).(nodes := nodes', edges := edges'))
      ensures Tables() == if ok then old(Tables()).(nodes := nodes', edges := edges') else old(Tables())
    {
      var before, wires := nodes, edges;
      nodes, edges := nodes', edges';
      ok := Constraints(State(nodes, edges, objects, commands, outputs, sessions, lineage));
      if !ok {
        nodes, edges := before, wires;
      }
    }
  }

  /** What a method reports, and the tables it leaves, against the gesture's outcome. */
  ghost predicate Carries<T>(outcome: Outcome<T>, before: State, after: State, r: Result<T, Refusal>) {
    match outcome
    case Done(state, value) => after == state && r == Ok(value)
    case Refused(reason) => after == before && r == Err(reason)
  }

  class GraphStore {
    const db: Database

    constructor (db: Database)
      ensures this.db == db
    {
      this.db := db;
    }

    method Place(role: NodeRole, refId: Id, workstream: Option<Id>, running: bool, id: NodeId)
        returns (r: Result<NodeId, Refusal>)
      requires db.Valid()
      modifies db
      ensures Carries(Board.Place(old(db.Tables()), role, refId, workstream, running, id), old(db.Tables()),
          db.Tables(), r)
    {
      if n :| n in db.nodes && db.nodes[n].role == role && db.nodes[n].refId == refId {
        return if db.nodes[n].deletedAt.Some? then Err(Refusal.NodeDeleted) else Ok(n);
      }
      if role.Content? && refId in db.objects && !MayCross(db.objects[refId], workstream) {
        return Err(LocalObject);
      }
      if id in db.nodes {
        return Err(ConstraintViolated);
      }
      var ok := db.Write(db.nodes[id := NodeRow(role, refId, workstream, running, None)], db.edges);
      return if ok then Ok(id) else Err(ConstraintViolated);
    }

    method SetRunning(n: NodeId, running: bool)
      modifies db
      ensures db.Tables() == Board.SetRunning(old(db.Tables()), n, running)
    {
      if n in db.nodes {
        db.nodes := db.nodes[n := db.nodes[n].(running := running)];
      }
    }

    /** The command that produced a content node, through its provenance. */
    method ProducingCommandOf(content: NodeId) returns (producer: Option<NodeId>)
      ensures producer == ProducerOf(db.Tables(), content)
      ensures forall c: NodeId :: producer == Some(c) <==> FirstCredit(db.Tables(), content, c)
    {
      ghost var s := db.Tables();
      forall c: NodeId
        ensures ProducerOf(s, content) == Some(c) <==> FirstCredit(s, content, c)
      {
        ProducerIff(s, content, c);
      }
      hide FirstCredit;
      for i := 0 to |db.edges|
        invariant ProducerOf(s, content) == ProducerFrom(s, content, i)
      {
        var edge := db.edges[i];
        if edge.kind.Provenance? && edge.to == content && edge.from in db.nodes {
          if db.nodes[edge.from].role.Command? {
            return Some(edge.from);
          }
          if db.nodes[edge.from].role.Session? {
            for j := 0 to |db.edges|
              invariant StartingCommand(s, edge.from, 0) == StartingCommand(s, edge.from, j)
            {
              var link := db.edges[j];
              if link.kind.Provenance? && link.to == edge.from && link.from in db.nodes
                  && db.nodes[link.from].role.Command? {
                return Some(link.from);
              }
            }
          }
        }
      }
      return None;
    }

    /** Resolve every live wire into a command to its producer, then search from the new one. */
    method IntroducesCycle(from: NodeId, to: NodeId) returns (cycle: bool)
      ensures cycle <==> Board.IntroducesCycle(db.Tables(), from, to)
    {
      ghost var s := db.Tables();
      var producer := ProducingCommandOf(from);
      if producer.None? {
        return false;
      }
      var inputs: CommandInputs := map[];
      for i := 0 to |db.edges|
        invariant Collected(s, i, inputs)
      {
        var edge := db.edges[i];
        ghost var before := inputs;
        if edge.LiveContext() && edge.to in db.nodes && db.nodes[edge.to].role.Command? {
          var source := ProducingCommandOf(edge.from);
          if source.Some? {
            inputs := WithInput(inputs, edge.to, source.value);
          }
        }
        CollectedStep(s, i, before, inputs);
      }
      CollectedAll(s, inputs);
      cycle := WouldCycle(inputs, producer.value, to);
    }

    /** Author a context edge, or say why not; a retried gesture returns the edge it already made. */
    method AddContextEdge(input: ContextInput, freshId: Id) returns (r: Result<EdgeRow, Refusal>)
      requires db.Valid()
      modifies db
      ensures Carries(Board.AddContextEdge(old(db.Tables()), input, freshId), old(db.Tables()), db.Tables(), r)
    {
      if input.edgeId.Some? {
        var k := EdgeAt(db.edges, input.edgeId.value);
        if k < |db.edges| {
          var already := db.edges[k];
          if already.from != input.from || already.to != input.to {
            return Err(EdgeIdCollision);
          }
          return if already.deletedAt.Some? then Err(EdgeDeleted) else Ok(already);
        }
      }
      if input.from !in db.nodes || input.to !in db.nodes {
        return Err(NotFound);
      }
      var from, to := db.nodes[input.from], db.nodes[input.to];
      if from.deletedAt.Some? || to.deletedAt.Some? {
        return Err(Refusal.NodeDeleted);
      }
      var legality := CheckConnection(GraphNode(input.from, from.role, from.running),
          GraphNode(input.to, to.role, to.running));
      if legality.Some? {
        return Err(Illegal(legality.value));
      }
      var source := CheckSource(State(db.nodes, db.edges, db.objects, db.commands, db.outputs, db.sessions, db.lineage),
          from.refId, to.workstream);
      if source.Some? {
        return Err(source.value);
      }
      var allowed := CheckAuthoring(db.lineage, input.author, if to.role.Session? then Some(to.refId) else None);
      if !allowed {
        return Err(OwnChain);
      }
      if AlreadyWired(db.edges, input.from, input.to) {
        return Err(Duplicate);
      }
      if to.role.Command? {
        var cycle := IntroducesCycle(input.from, input.to);
        if cycle {
          return Err(WouldClose);
        }
      }
      var id := if input.edgeId.Some? then input.edgeId.value else freshId;
      var ordinal := if input.ordinal.Some? then input.ordinal.value else NextOrdinal(db.edges, input.to);
      var row := EdgeRow(id, Context(input.author, ordinal), input.from, input.to, None);
      var ok := db.Write(db.nodes, db.edges + [row]);
      return if ok then Ok(row) else Err(ConstraintViolated);
    }

    method RecordProvenance(from: NodeId, to: NodeId, relation: ProvenanceKind, freshId: Id)
        returns (r: Result<EdgeRow, Refusal>)
      modifies db
      ensures Carries(Board.RecordProvenance(old(db.Tables()), from, to, relation, freshId), old(db.Tables()),
          db.Tables(), r)
    {
      var k := ProvenanceAt(db.edges, from, to, relation);
      if k < |db.edges| {
        return Ok(db.edges[k]);
      }
      if from !in db.nodes || to !in db.nodes {
        return Err(NotFound);
      }
      if db.nodes[from].deletedAt.Some? || db.nodes[to].deletedAt.Some? {
        return Err(Refusal.NodeDeleted);
      }
      var row := EdgeRow(freshId, Provenance(relation), from, to, None);
      var ok := db.Write(db.nodes, db.edges + [row]);
      return if ok then Ok(row) else Err(ConstraintViolated);
    }

    /** One pass of single writes, each checked against the unique index; a refused write stops the pass. */
    method Renumber(ids: seq<Id>, sign: int) returns (ok: bool)
      requires LiveIndexes(db.edges)
      modifies db`edges
      ensures ok <==> PassHolds(old(db.edges), ids, sign)
      ensures ok ==> db.edges == Pass(old(db.edges), ids, |ids|, sign)
    {
      var before := db.edges;
      for k := 0 to |ids|
        invariant db.edges == Pass(before, ids, k, sign)
        invariant forall j | 0 <= j <= k :: LiveIndexes(Pass(before, ids, j, sign))
      {
        db.edges := SetOrdinal(db.edges, ids[k], sign * (k + 1));
        assert db.edges == Pass(before, ids, k + 1, sign);
        if !LiveIndexes(db.edges) {
          return false;
        }
      }
      return true;
    }

    /** Two passes in one transaction: the listed inputs take negative ordinals, then 1..n. */
    method ReorderContextInputs(n: NodeId, ids: seq<Id>) returns (r: Result<(), Refusal>)
      requires db.Valid()
      modifies db
      ensures Carries(Board.ReorderContextInputs(old(db.Tables()), n, ids), old(db.Tables()), db.Tables(), r)
    {
      var current := InputIds(db.edges, n);
      if (exists x | x in current :: x !in ids) || |ids| != |current| {
        assert !ListsEveryInput(db.edges, n, ids);
        return Err(BadReorder);
      }
      assert ListsEveryInput(db.edges, n, ids);
      var before := db.edges;
      var ok := Renumber(ids, -1);
      if ok {
        assert LiveIndexes(Pass(before, ids, |ids|, -1));
        ok := Renumber(ids, 1);
      }
      if !ok {
        db.edges := before;
        return Err(ConstraintViolated);
      }
      return Ok(());
    }

    method RemoveEdge(id: Id, now: Time) returns (r: Result<EdgeRow, Refusal>)
      modifies db
      ensures Carries(Board.RemoveEdge(old(db.Tables()), id, now), old(db.Tables()), db.Tables(), r)
    {
      var k := EdgeAt(db.edges, id);
      if k == |db.edges| {
        return Err(NotFound);
      }
      if !db.edges[k].kind.Context? {
        return Err(ProvenanceNotAuthored);
      }
      var removed := db.edges[k].(deletedAt := Some(now));
      var ok := db.Write(db.nodes, Stamp(db.edges, {id}, Some(now)));
      return if ok then Ok(removed) else Err(ConstraintViolated);
    }

    method RestoreEdge(id: Id) returns (r: Result<EdgeRow, Refusal>)
      modifies db
      ensures Carries(Board.RestoreEdge(old(db.Tables()), id), old(db.Tables()), db.Tables(), r)
    {
      var k := EdgeAt(db.edges, id);
      if k == |db.edges| {
        return Err(NotFound);
      }
      var restored := db.edges[k].(deletedAt := None);
      var ok := db.Write(db.nodes, Stamp(db.edges, {id}, None));
      return if ok then Ok(restored) else Err(ConstraintViolated);
    }

    method RemoveNode(n: NodeId, now: Time) returns (r: Result<NodeRemoval, Refusal>)
      modifies db
      ensures Carries(Board.RemoveNode(old(db.Tables()), n, now), old(db.Tables()), db.Tables(), r)
    {
      if n !in db.nodes {
        return Err(NotFound);
      }
      if db.nodes[n].deletedAt.Some? {
        return Ok(NodeRemoval({}, false));
      }
      var touched := Through(db.edges, n, None);
      var ok := db.Write(db.nodes[n := db.nodes[n].(deletedAt := Some(now))], Stamp(db.edges, touched, Some(now)));
      return if ok then Ok(NodeRemoval(touched, true)) else Err(ConstraintViolated);
    }

    method RestoreNode(n: NodeId) returns (r: Result<NodeRemoval, Refusal>)
      modifies db
      ensures Carries(Board.RestoreNode(old(db.Tables()), n), old(db.Tables()), db.Tables(), r)
    {
      if n !in db.nodes {
        return Err(NotFound);
      }
      var row := db.nodes[n];
      if row.deletedAt.None? {
        return Ok(NodeRemoval({}, false));
      }
      if SubjectIsDeleted(State(db.nodes, db.edges, db.objects, db.commands, db.outputs, db.sessions, db.lineage),
          row) {
        return Err(SubjectDeleted);
      }
      var touched := Through(db.edges, n, row.deletedAt);
      var ok := db.Write(db.nodes[n := row.(deletedAt := None)], Stamp(db.edges, touched, None));
      return if ok then Ok(NodeRemoval(touched, true)) else Err(ConstraintViolated);
    }

    /** Record who started a session; an existing row wins, an unknown parent violates the foreign key. */
    method RecordLineage(session: SessionId, parent: Option<SessionId>) returns (r: Result<(), Refusal>)
      modifies db
      ensures Carries(RecordSessionLineage(old(db.Tables()), session, parent), old(db.Tables()), db.Tables(), r)
    {
      if Recorded(db.lineage, session) {
        return Ok(());
      }
      if parent.Some? && parent.value != session && !Recorded(db.lineage, parent.value) {
        return Err(ConstraintViolated);
      }
      db.lineage := db.lineage + [LineageRow(session, parent)];
      return Ok(());
    }
  }

  /** `list.push(producer)` on the consumer's list, which starts empty. */
  function WithInput(inputs: CommandInputs, consumer: NodeId, producer: NodeId): (r: CommandInputs)
    ensures forall c, p :: c in r && p in r[c] <==> (c in inputs && p in inputs[c]) || (c == consumer && p == producer)
  {
    inputs[consumer := (if consumer in inputs then inputs[consumer] else []) + [producer]]
  }

  /** One of the first `i` rows is a live wire that feeds `p`'s output to `c`. */
  ghost predicate FedBefore(s: State, i: nat, c: NodeId, p: NodeId) {
    exists j: nat | j < i && j < |s.edges| :: s.edges[j].deletedAt.None? && WirePair(s, j) == Some((c, p))
  }

  /** The input map holds the producers behind the first `i` rows. */
  ghost predicate Collected(s: State, i: nat, inputs: CommandInputs) {
    forall c, p :: c in inputs && p in inputs[c] <==> FedBefore(s, i, c, p)
  }

  lemma CollectedStep(s: State, i: nat, before: CommandInputs, after: CommandInputs)
    requires i < |s.edges| && Collected(s, i, before)
    requires after == if s.edges[i].deletedAt.None? && WirePair(s, i).Some?
                      then WithInput(before, WirePair(s, i).value.0, WirePair(s, i).value.1) else before
    ensures Collected(s, i + 1, after)
  {
    assert WirePair(s, i).Some? ==> WirePair(s, i) == Some((WirePair(s, i).value.0, WirePair(s, i).value.1));
    var k: nat := i + 1;
    forall c: NodeId, p: NodeId
      ensures c in after && p in after[c] <==> FedBefore(s, k, c, p)
    {
      FedBeforeStep(s, i, c, p);
    }
    assert Collected(s, k, after);
  }

  lemma FedBeforeStep(s: State, i: nat, c: NodeId, p: NodeId)
    requires i < |s.edges|
    ensures FedBefore(s, i + 1, c, p) <==>
        FedBefore(s, i, c, p) || (s.edges[i].deletedAt.None? && WirePair(s, i) == Some((c, p)))
  {
    if FedBefore(s, i + 1, c, p) {
      var j: nat :| j < i + 1 && j < |s.edges| && s.edges[j].deletedAt.None? && WirePair(s, j) == Some((c, p));
      assert j < i ==> FedBefore(s, i, c, p);
    }
  }

  lemma CollectedAll(s: State, inputs: CommandInputs)
    requires Collected(s, |s.edges|, inputs)
    ensures Links(inputs) == Feeds(s)
  {
    var e := Links(inputs);
    forall c: NodeId, p: NodeId
      ensures (c, p) in e <==> (c, p) in Feeds(s)
    {
      if (c, p) in Feeds(s) {
        var i :| 0 <= i < |s.edges| && s.edges[i].deletedAt.None? && WirePair(s, i) == Some((c, p));
        assert FedBefore(s, |s.edges|, c, p);
      }
    }
    assert forall x :: x in e <==> x in Feeds(s) by {
      forall x: (NodeId, NodeId)
        ensures x in e <==> x in Feeds(s)
      {
        assert x == (x.0, x.1);
      }
    }
  }
}
