/** Connection legality and the cycle check of command topology (packages/core/src/edges.ts). */
module Edges {
  import opened Wrappers
  import opened Reachability

  type NodeId = nat

  datatype NodeRole = Content | Command | Session

  datatype GraphNode = GraphNode(id: NodeId, role: NodeRole, running: bool)

  datatype ConnectionRefusal = SelfConnection | SourceNotContent | SessionNotRunning | IllegalTarget

  /** The legal connections, exhaustively: content into a command, content into a running session. */
  function CheckConnection(from: GraphNode, to: GraphNode): (r: Option<ConnectionRefusal>)
    ensures r.None? <==>
            from.id != to.id && from.role.Content? && (to.role.Command? || (to.role.Session? && to.running))
  {
    if from.id == to.id then Some(SelfConnection)
    else if !from.role.Content? then Some(SourceNotContent)
    else match to.role
      case Command => None
      case Session => if to.running then None else Some(SessionNotRunning)
      case Content => Some(IllegalTarget)
  }

  type CommandInputs = map<NodeId, seq<NodeId>>

  /** The relation an input map stands for. */
  ghost function Links(inputs: CommandInputs): (e: Relation)
    ensures forall c, p :: (c, p) in e <==> c in inputs && p in inputs[c]
  {
    set c, p | c in inputs && p in inputs[c] :: (c, p)
  }

  /** Every command that a search of `inputs` from `producer` can come across. */
  ghost function Universe(inputs: CommandInputs, producer: NodeId): set<NodeId> {
    {producer} + (set c, p | c in inputs && p in inputs[c] :: p)
  }

  /** Everything met so far is reachable, and whatever a visited command takes input from is visited or waiting. */
  ghost predicate Searching(e: Relation, producer: NodeId, seen: set<NodeId>, stack: seq<NodeId>) {
    && (forall v | v in stack :: Reaches(e, producer, v))
    && (forall v | v in seen :: Reaches(e, producer, v))
    && (producer in seen || producer in stack)
    && (forall c, p | c in seen && (c, p) in e :: p in seen || p in stack)
  }

  lemma PopSeen(e: Relation, producer: NodeId, seen: set<NodeId>, rest: seq<NodeId>, current: NodeId)
    requires Searching(e, producer, seen, rest + [current]) && current in seen
    ensures Searching(e, producer, seen, rest)
  {
    forall v | v in rest
      ensures v in rest + [current]
    {
    }
  }

  lemma Expand(e: Relation, producer: NodeId, seen: set<NodeId>, rest: seq<NodeId>, current: NodeId, next: seq<NodeId>)
    requires Searching(e, producer, seen, rest + [current])
    requires forall p :: p in next <==> (current, p) in e
    ensures Searching(e, producer, seen + {current}, rest + next)
  {
    assert current in rest + [current];
    forall v | v in rest + next
      ensures Reaches(e, producer, v)
    {
      if v in rest {
        assert v in rest + [current];
      } else {
        ReachesSelf(e, v);
        ReachesStep(e, current, v, v);
        ReachesTransitive(e, producer, current, v);
      }
    }
  }

  /** Depth-first search with an explicit stack; the first guard and the `seen` set are the original's. */
  method WouldCycle(inputs: CommandInputs, producer: NodeId, consumer: NodeId) returns (cycle: bool)
    ensures cycle <==> Reaches(Links(inputs), producer, consumer)
  {
    ghost var e := Links(inputs);
    ReachesSelf(e, producer);
    if producer == consumer {
      return true;
    }
    var seen: set<NodeId> := {};
    var stack := [producer];
    ghost var all := Universe(inputs, producer);
    while |stack| > 0
      invariant forall v | v in stack :: v in all
      invariant seen <= all && consumer !in seen
      invariant Searching(e, producer, seen, stack)
      decreases all - seen, |stack|
    {
      var current := stack[|stack| - 1];
      var rest := stack[..|stack| - 1];
      assert stack == rest + [current];
      if current == consumer {
        return true;
      }
      if current in seen {
        PopSeen(e, producer, seen, rest, current);
        stack := rest;
        continue;
      }
      var next := if current in inputs then inputs[current] else [];
      Expand(e, producer, seen, rest, current, next);
      seen := seen + {current};
      stack := rest + next;
    }
    if Reaches(e, producer, consumer) {
      ClosedSetHoldsPath(e, seen, producer, consumer);
    }
    return false;
  }

  /** A set closed under the links holds everything reachable from its members. */
  lemma ClosedSetHoldsPath(e: Relation, s: set<Vertex>, a: Vertex, b: Vertex)
    requires a in s && Reaches(e, a, b)
    requires forall c, p | c in s && (c, p) in e :: p in s
    ensures b in s
  {
    var path :| PathBetween(e, path, a, b);
    var i := 0;
    while i < |path| - 1
      invariant 0 <= i < |path| && path[i] in s
    {
      assert (path[i], path[i + 1]) in e;
      i := i + 1;
    }
  }
}
