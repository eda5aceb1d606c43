/** Command topology: what each gesture does to the relation "takes input from", and when it stays acyclic. */
module BoardTopology {
  import opened Wrappers
  import opened Reachability
  import opened Edges
  import opened Lineage
  import opened Board

  /** Identity, ends, kind and author of a row never change; only its ordinal and its removal stamp do. */
  predicate SameFact(e: EdgeRow, f: EdgeRow) {
    && e.id == f.id && e.from == f.from && e.to == f.to
    && match e.kind
       case Context(author, _) => f.kind.Context? && f.kind.author == author
       case Provenance(relation) => f.kind == Provenance(relation)
  }

  /** `t` keeps every node and every edge of `s`, in place. */
  ghost predicate Extends(s: State, t: State) {
    && (forall n | n in s.nodes :: n in t.nodes && t.nodes[n].role == s.nodes[n].role
                                   && t.nodes[n].refId == s.nodes[n].refId
                                   && t.nodes[n].workstream == s.nodes[n].workstream)
    && |s.edges| <= |t.edges|
    && (forall i | 0 <= i < |s.edges| :: SameFact(s.edges[i], t.edges[i]))
  }

  // ----- rows stay, the producer relation stays

  lemma {:induction false} StartingCommandFrame(s: State, t: State, session: NodeId, i: nat)
    requires EdgeReferences(s.nodes, s.edges) && Extends(s, t) && |s.edges| == |t.edges| && i <= |s.edges|
    ensures StartingCommand(t, session, i) == StartingCommand(s, session, i)
    decreases |s.edges| - i
  {
    if i < |s.edges| {
      assert SameFact(s.edges[i], t.edges[i]);
      StartingCommandFrame(s, t, session, i + 1);
    }
  }

  lemma {:induction false} ProducerFrame(s: State, t: State, content: NodeId, i: nat)
    requires EdgeReferences(s.nodes, s.edges) && Extends(s, t) && |s.edges| == |t.edges| && i <= |s.edges|
    ensures ProducerFrom(t, content, i) == ProducerFrom(s, content, i)
    decreases |s.edges| - i
  {
    if i < |s.edges| {
      assert SameFact(s.edges[i], t.edges[i]);
      StartingCommandFrame(s, t, s.edges[i].from, 0);
      ProducerFrame(s, t, content, i + 1);
    }
  }

  lemma WirePairFrame(s: State, t: State, i: nat)
    requires EdgeReferences(s.nodes, s.edges) && Extends(s, t) && |s.edges| == |t.edges| && i < |s.edges|
    ensures WirePair(t, i) == WirePair(s, i)
  {
    assert SameFact(s.edges[i], t.edges[i]);
    ProducerFrame(s, t, s.edges[i].from, 0);
  }

  /** The pairs of the rows whose index is in `rows`, live or not. */
  ghost function PairsOf(s: State, rows: set<nat>): Relation {
    set i | i in rows && 0 <= i < |s.edges| && WirePair(s, i).Some? :: WirePair(s, i).value
  }

  ghost function LiveRows(s: State): set<nat> {
    set i: nat | 0 <= i < |s.edges| && s.edges[i].deletedAt.None?
  }

  lemma FeedsAreLivePairs(s: State)
    ensures Feeds(s) == PairsOf(s, LiveRows(s))
  {
  }

  /** With the same rows, topology depends only on which of them are live. */
  lemma FeedsFrame(s: State, t: State)
    requires EdgeReferences(s.nodes, s.edges) && Extends(s, t) && |s.edges| == |t.edges|
    ensures Feeds(t) == PairsOf(s, LiveRows(t))
  {
    forall i: nat | i < |s.edges|
      ensures WirePair(t, i) == WirePair(s, i)
    {
      WirePairFrame(s, t, i);
    }
  }

  /** A gesture that brings no row back to life leaves the topology acyclic. */
  lemma FewerWiresKeepAcyclic(s: State, t: State)
    requires EdgeReferences(s.nodes, s.edges) && Extends(s, t) && |s.edges| == |t.edges|
    requires LiveRows(t) <= LiveRows(s) && Acyclic(Feeds(s))
    ensures Acyclic(Feeds(t))
  {
    FeedsFrame(s, t);
    FeedsAreLivePairs(s);
    AcyclicSubset(Feeds(t), Feeds(s));
  }

  // ----- a new row at the end

  lemma {:induction false} StartingCommandAppended(s: State, row: EdgeRow, session: NodeId, i: nat)
    requires i <= |s.edges|
    ensures var t := s.(edges := s.edges + [row]);
            StartingCommand(t, session, i) ==
            if StartingCommand(s, session, i).Some? then StartingCommand(s, session, i)
            else if row.kind.Provenance? && row.to == session && RoleOf(s, row.from) == Some(Command)
                then Some(row.from)
            else None
    decreases |s.edges| - i
  {
    var t := s.(edges := s.edges + [row]);
    if i < |s.edges| {
      assert t.edges[i] == s.edges[i];
      StartingCommandAppended(s, row, session, i + 1);
    } else {
      assert t.edges[i] == row && StartingCommand(t, session, i + 1) == None;
    }
  }

  /** A new row gives a content node no producer but the command behind the row itself. */
  lemma {:induction false} ProducerAppended(s: State, row: EdgeRow, content: NodeId, i: nat)
    requires i <= |s.edges|
    ensures var t := s.(edges := s.edges + [row]);
            ProducerFrom(t, content, i) != ProducerFrom(s, content, i) ==>
              && row.kind.Provenance? && CommandBehind(s, row.from).Some?
              && ProducerFrom(t, content, i) == CommandBehind(s, row.from)
              && (content == row.to || RoleOf(s, row.to) == Some(Session))
    decreases |s.edges| - i
  {
    var t := s.(edges := s.edges + [row]);
    StartingCommandAppended(s, row, row.from, 0);
    if i < |s.edges| {
      assert t.edges[i] == s.edges[i];
      StartingCommandAppended(s, row, s.edges[i].from, 0);
      ProducerAppended(s, row, content, i + 1);
    } else {
      assert t.edges[i] == row && ProducerFrom(t, content, i + 1) == None;
    }
  }

  lemma FeedsAppendedContext(s: State, row: EdgeRow)
    requires EdgeReferences(s.nodes, s.edges) && row.kind.Context? && row.deletedAt.None?
    ensures var t := s.(edges := s.edges + [row]);
            Feeds(t) == Feeds(s) + if RoleOf(s, row.to) == Some(Command) && ProducerOf(s, row.from).Some?
                                   then {(row.to, ProducerOf(s, row.from).value)} else {}
  {
    var t := s.(edges := s.edges + [row]);
    forall i: nat | i < |s.edges|
      ensures t.edges[i] == s.edges[i] && WirePair(t, i) == WirePair(s, i)
    {
      ProducerAppended(s, row, s.edges[i].from, 0);
    }
    ProducerAppended(s, row, row.from, 0);
    var k := |s.edges|;
    assert t.edges[k] == row;
    var more := if RoleOf(s, row.to) == Some(Command) && ProducerOf(s, row.from).Some?
                then {(row.to, ProducerOf(s, row.from).value)} else {};
    forall x | x in Feeds(t)
      ensures x in Feeds(s) + more
    {
      var i :| 0 <= i < |t.edges| && t.edges[i].deletedAt.None? && WirePair(t, i) == Some(x);
    }
    forall x | x in Feeds(s) + more
      ensures x in Feeds(t)
    {
      if x in Feeds(s) {
        var i :| 0 <= i < |s.edges| && s.edges[i].deletedAt.None? && WirePair(s, i) == Some(x);
        assert t.edges[i].deletedAt.None? && WirePair(t, i) == Some(x);
      } else {
        assert t.edges[k].deletedAt.None? && WirePair(t, k) == Some(x);
      }
    }
  }

  // ----- the gestures

  /**
   * A wire into a command that passes every earlier check is refused as a cycle exactly when it would close one, and
   * landing it keeps the topology acyclic.
   */
  lemma WireClosesCycleIffRefused(s: State, row: EdgeRow)
    requires EdgeReferences(s.nodes, s.edges) && Acyclic(Feeds(s))
    requires row.kind.Context? && row.deletedAt.None? && RoleOf(s, row.to) == Some(Command)
    ensures Acyclic(Feeds(s.(edges := s.edges + [row]))) <==> !IntroducesCycle(s, row.from, row.to)
  {
    FeedsAppendedContext(s, row);
    assert Feeds(s) + {} == Feeds(s);
    if ProducerOf(s, row.from).Some? {
      StarKeepsAcyclic(Feeds(s), {(row.to, ProducerOf(s, row.from).value)});
    }
  }

  lemma AddContextEdgeKeepsAcyclic(s: State, input: ContextInput, freshId: Id)
    requires Constraints(s) && Rooted(s.lineage) && Acyclic(Feeds(s))
    requires AddContextEdge(s, input, freshId).Done?
    ensures Acyclic(Feeds(AddContextEdge(s, input, freshId).state))
  {
    var t := AddContextEdge(s, input, freshId).state;
    if |t.edges| != |s.edges| {
      var row := NewWire(s, input, freshId);
      if s.nodes[input.to].role.Command? {
        WireClosesCycleIffRefused(s, row);
      } else {
        FeedsAppendedContext(s, row);
        assert Feeds(s) + {} == Feeds(s);
      }
    }
  }

  /**
   * `would_cycle` is the answer exactly when every earlier check passes and the wire, once landed, would make some
   * command's output its own input.
   */
  lemma RefusedAsCycleIff(s: State, input: ContextInput, freshId: Id)
    requires Constraints(s) && Rooted(s.lineage) && Acyclic(Feeds(s))
    requires input.edgeId.Some? ==> EdgeAt(s.edges, input.edgeId.value) == |s.edges|
    requires RefuseEarly(s, input).None?
    ensures AddContextEdge(s, input, freshId) == Refused(WouldClose) <==>
            !Acyclic(Feeds(s.(edges := s.edges + [NewWire(s, input, freshId)])))
  {
    var row := NewWire(s, input, freshId);
    if s.nodes[input.to].role.Command? {
      WireClosesCycleIffRefused(s, row);
    } else {
      FeedsAppendedContext(s, row);
      assert Feeds(s) + {} == Feeds(s);
    }
  }

  /** The rows whose source content changes producer when `row` is recorded. */
  ghost function Retargeted(s: State, row: EdgeRow): set<nat> {
    set i: nat | i < |s.edges|
        && ProducerOf(s.(edges := s.edges + [row]), s.edges[i].from) != ProducerOf(s, s.edges[i].from)
  }

  /** The wires of the live topology that `row` leaves as they are. */
  ghost function Untouched(s: State, row: EdgeRow): Relation {
    PairsOf(s, LiveRows(s) - Retargeted(s, row))
  }

  /** The commands that take live input from content whose producer becomes the command behind `row`. */
  ghost function Rehung(s: State, row: EdgeRow): set<NodeId> {
    set i | i in Retargeted(s, row) && i in LiveRows(s) && s.edges[i].kind.Context?
        && RoleOf(s, s.edges[i].to) == Some(Command)
    :: s.edges[i].to
  }

  /**
   * Provenance recorded late keeps the topology acyclic exactly when no command it re-hangs feeds the command behind
   * it.
   */
  lemma RecordedProvenanceAcyclicIff(s: State, row: EdgeRow)
    requires EdgeReferences(s.nodes, s.edges) && row.kind.Provenance? && Acyclic(Feeds(s))
    ensures var t := s.(edges := s.edges + [row]);
            Acyclic(Feeds(t)) <==>
            (var behind := CommandBehind(s, row.from);
             behind.None? || forall c | c in Rehung(s, row) :: !Reaches(Untouched(s, row), behind.value, c))
  {
    var t := s.(edges := s.edges + [row]);
    var kept := Untouched(s, row);
    var rehung := Rehung(s, row);
    if rehung == {} {
      FeedsAfterProvenance(s, row, {});
      assert kept + {} == kept;
      FeedsAreLivePairs(s);
      AcyclicSubset(kept, Feeds(s));
    } else {
      var c0 :| c0 in rehung;
      var i0 :| i0 in Retargeted(s, row) && s.edges[i0].to == c0;
      ProducerAppended(s, row, s.edges[i0].from, 0);
      var p := CommandBehind(s, row.from).value;
      var hung := set c | c in rehung :: (c, p);
      FeedsAfterProvenance(s, row, hung);
      FeedsAreLivePairs(s);
      AcyclicSubset(kept, Feeds(s));
      StarKeepsAcyclic(kept, hung);
      assert forall c | c in rehung :: (c, p) in hung;
    }
  }

  lemma FeedsAfterProvenance(s: State, row: EdgeRow, hung: Relation)
    requires EdgeReferences(s.nodes, s.edges) && row.kind.Provenance?
    requires forall x :: x in hung <==> x.0 in Rehung(s, row) && CommandBehind(s, row.from) == Some(x.1)
    ensures Feeds(s.(edges := s.edges + [row])) == Untouched(s, row) + hung
  {
    var t := s.(edges := s.edges + [row]);
    var changed := Retargeted(s, row);
    forall i: nat | i < |s.edges|
      ensures t.edges[i] == s.edges[i]
      ensures i !in changed ==> WirePair(t, i) == WirePair(s, i)
      ensures i in changed && s.edges[i].kind.Context? && RoleOf(s, s.edges[i].to) == Some(Command) ==>
                CommandBehind(s, row.from).Some?
                    && WirePair(t, i) == Some((s.edges[i].to, CommandBehind(s, row.from).value))
    {
      ProducerAppended(s, row, s.edges[i].from, 0);
    }
    forall x | x in Feeds(t)
      ensures x in Untouched(s, row) + hung
    {
      var i :| 0 <= i < |t.edges| && t.edges[i].deletedAt.None? && WirePair(t, i) == Some(x);
      assert i < |s.edges|;
      assert i in LiveRows(s);
    }
    forall x | x in Untouched(s, row) + hung
      ensures x in Feeds(t)
    {
      if x in Untouched(s, row) {
        var i :| i in LiveRows(s) - changed && WirePair(s, i) == Some(x);
        assert t.edges[i].deletedAt.None? && WirePair(t, i) == Some(x);
      } else {
        var i :| i in changed && i in LiveRows(s) && s.edges[i].kind.Context?
            && RoleOf(s, s.edges[i].to) == Some(Command)
                 && s.edges[i].to == x.0;
        assert t.edges[i].deletedAt.None? && WirePair(t, i) == Some(x);
      }
    }
  }

  /** Provenance into a content node that nothing is wired from changes no topology. */
  lemma ProvenanceOfUnwiredContent(s: State, row: EdgeRow)
    requires EdgeReferences(s.nodes, s.edges) && row.kind.Provenance? && RoleOf(s, row.to) == Some(Content)
    requires forall i | 0 <= i < |s.edges| :: s.edges[i].from != row.to
    ensures Feeds(s.(edges := s.edges + [row])) == Feeds(s)
  {
    forall i: nat | i < |s.edges|
      ensures i !in Retargeted(s, row)
    {
      ProducerAppended(s, row, s.edges[i].from, 0);
    }
    FeedsAfterProvenance(s, row, {});
    assert LiveRows(s) - Retargeted(s, row) == LiveRows(s);
    FeedsAreLivePairs(s);
  }

  // ----- restoring, which re-checks nothing

  /** The (consumer, producer) pairs that come back to life between `s` and `t`. */
  ghost function Revived(s: State, t: State): Relation {
    PairsOf(s, LiveRows(t) - LiveRows(s))
  }

  lemma RevivalAcyclicIff(s: State, t: State)
    requires EdgeReferences(s.nodes, s.edges) && Extends(s, t) && |s.edges| == |t.edges|
    requires LiveRows(s) <= LiveRows(t) && Acyclic(Feeds(s)) && Star(Revived(s, t))
    ensures Acyclic(Feeds(t)) <==> forall x | x in Revived(s, t) :: !Reaches(Feeds(s), x.1, x.0)
  {
    FeedsFrame(s, t);
    FeedsAreLivePairs(s);
    assert LiveRows(t) == LiveRows(s) + (LiveRows(t) - LiveRows(s));
    assert Feeds(t) == Feeds(s) + Revived(s, t);
    StarKeepsAcyclic(Feeds(s), Revived(s, t));
  }

  /** Restoring a wire keeps the topology acyclic exactly when its producer does not already depend on its target. */
  lemma RestoreEdgeAcyclicIff(s: State, id: Id)
    requires Constraints(s) && Acyclic(Feeds(s)) && RestoreEdge(s, id).Done?
    ensures var t := RestoreEdge(s, id).state;
            var k := EdgeAt(s.edges, id);
            Acyclic(Feeds(t)) <==>
            (s.edges[k].deletedAt.None? || WirePair(s, k).None?
                || !Reaches(Feeds(s), WirePair(s, k).value.1, WirePair(s, k).value.0))
  {
    var t := RestoreEdge(s, id).state;
    StampExtends(s, t, {id}, None);
    RevivedByEdge(s, t, id);
    RevivalAcyclicIff(s, t);
  }

  lemma RevivedByEdge(s: State, t: State, id: Id)
    requires EdgeKeys(s.edges) && EdgeAt(s.edges, id) < |s.edges| && t.edges == Stamp(s.edges, {id}, None)
    ensures var k := EdgeAt(s.edges, id);
            Revived(s, t) == if s.edges[k].deletedAt.Some? && WirePair(s, k).Some? then {WirePair(s, k).value} else {}
  {
    var k := EdgeAt(s.edges, id);
    forall i: nat
      ensures i in LiveRows(t) - LiveRows(s) <==> i == k && s.edges[k].deletedAt.Some?
    {
    }
    assert LiveRows(t) - LiveRows(s) == if s.edges[k].deletedAt.Some? then {k} else {};
  }

  /** Context runs from content into a command or a session; the connection check sees to it. */
  ghost predicate WellWired(s: State) {
    forall i | 0 <= i < |s.edges| && s.edges[i].kind.Context? ::
      RoleOf(s, s.edges[i].from) == Some(Content) && RoleOf(s, s.edges[i].to) in {Some(Command), Some(Session)}
  }

  /** Restoring a node keeps the topology acyclic exactly when no wire it brings back closes a walk. */
  lemma RestoreNodeAcyclicIff(s: State, n: NodeId)
    requires Constraints(s) && WellWired(s) && Acyclic(Feeds(s)) && RestoreNode(s, n).Done?
    ensures var t := RestoreNode(s, n).state;
            Acyclic(Feeds(t)) <==> forall x | x in Revived(s, t) :: !Reaches(Feeds(s), x.1, x.0)
  {
    var t := RestoreNode(s, n).state;
    RestoreNodeExtends(s, n);
    RevivedByNodeIsStar(s, n);
    RevivalAcyclicIff(s, t);
  }

  /** A revived row touches the restored node. */
  lemma RevivedTouches(s: State, n: NodeId, i: nat)
    requires Constraints(s) && RestoreNode(s, n).Done?
    requires i in LiveRows(RestoreNode(s, n).state) - LiveRows(s)
    ensures i < |s.edges| && s.edges[i].Touches(n)
  {
    var t := RestoreNode(s, n).state;
    assert t.edges[i] != s.edges[i];
    var j :| 0 <= j < |s.edges| && s.edges[j].id == s.edges[i].id && s.edges[j].Touches(n);
    assert i == j;
  }

  /** Content has one producer and a command is one consumer, so what a node brings back is a star. */
  lemma RevivedByNodeIsStar(s: State, n: NodeId)
    requires Constraints(s) && WellWired(s) && RestoreNode(s, n).Done?
    ensures Star(Revived(s, RestoreNode(s, n).state))
  {
    var back := Revived(s, RestoreNode(s, n).state);
    var one := if ProducerOf(s, n).Some? then ProducerOf(s, n).value else n;
    forall x | x in back
      ensures if RoleOf(s, n) == Some(Content) then x.1 == one else x.0 == n
    {
      var rows := LiveRows(RestoreNode(s, n).state) - LiveRows(s);
      var i: nat :| i in rows && i < |s.edges| && WirePair(s, i) == Some(x);
      RevivedTouches(s, n, i);
    }
  }

  /** The same nodes, up to their stamps and whether they run. */
  ghost predicate SameNodes(s: State, t: State) {
    t.nodes.Keys == s.nodes.Keys &&
    forall n | n in s.nodes ::
        t.nodes[n] == s.nodes[n].(deletedAt := t.nodes[n].deletedAt, running := t.nodes[n].running)
  }

  /** Stamping rows removes wires or brings them back, and does nothing else. */
  lemma StampExtends(s: State, t: State, ids: set<Id>, at: Option<Time>)
    requires SameNodes(s, t) && t.edges == Stamp(s.edges, ids, at)
    ensures Extends(s, t) && |t.edges| == |s.edges|
    ensures if at.Some? then LiveRows(t) <= LiveRows(s) else LiveRows(s) <= LiveRows(t)
  {
  }

  lemma RestoreNodeExtends(s: State, n: NodeId)
    requires RestoreNode(s, n).Done?
    ensures var t := RestoreNode(s, n).state;
            Extends(s, t) && |t.edges| == |s.edges| && LiveRows(s) <= LiveRows(t)
  {
    if s.nodes[n].deletedAt.Some? {
      StampExtends(s, RestoreNode(s, n).state, Through(s.edges, n, s.nodes[n].deletedAt), None);
    }
  }

  lemma RemoveNodeExtends(s: State, n: NodeId, now: Time)
    requires RemoveNode(s, n, now).Done?
    ensures var t := RemoveNode(s, n, now).state;
            Extends(s, t) && |t.edges| == |s.edges| && LiveRows(t) <= LiveRows(s)
  {
    if s.nodes[n].deletedAt.None? {
      StampExtends(s, RemoveNode(s, n, now).state, Through(s.edges, n, None), Some(now));
    }
  }
}
