/** Rules checked once, when a wire is authored or a node placed, that must hold of it for ever. */
module BoardScope {
  import opened Wrappers
  import opened Edges
  import opened Lineage
  import opened Board
  import opened BoardTopology

  // ----- objects and outputs across workstreams

  /** What an output's wires may rely on beyond its own workstream: a published promise, or a world object. */
  predicate Crossable(s: State, out: Id)
    requires out in s.outputs && OutputChecks(s)
  {
    var row := s.outputs[out];
    if row.boundObject.Some? then s.objects[row.boundObject.value].scope.World? else row.publishedAt.Some?
  }

  predicate OutputMayReach(s: State, out: Id, target: Option<Id>)
    requires out in s.outputs && OutputChecks(s)
  {
    target == Some(s.commands[s.outputs[out].command].workstream) || Crossable(s, out)
  }

  /** Content standing for `refId` may be used in `target`, by the object rule and by the placeholder rule. */
  predicate MayReach(s: State, refId: Id, target: Option<Id>)
    requires OutputChecks(s)
  {
    && (refId in s.objects ==> MayCross(s.objects[refId], target))
    && (refId in s.outputs ==> OutputMayReach(s, refId, target))
  }

  /** A check that passes establishes the rule; the broken-placeholder refusal is the one part not kept for ever. */
  lemma CheckSourceIff(s: State, refId: Id, target: Option<Id>)
    requires OutputChecks(s)
    ensures CheckSource(s, refId, target).None? <==>
            MayReach(s, refId, target) && (refId in s.outputs ==> s.outputs[refId].brokenAt.None?)
  {
  }

  /**
   * No context edge, removed ones included, carries content where it may not go, and no local object is placed abroad.
   */
  ghost predicate ScopeSafe(s: State)
    requires OutputChecks(s) && EdgeReferences(s.nodes, s.edges)
  {
    && (forall i | 0 <= i < |s.edges| && s.edges[i].kind.Context? ::
          MayReach(s, s.nodes[s.edges[i].from].refId, s.nodes[s.edges[i].to].workstream))
    && (forall n | n in s.nodes && s.nodes[n].role.Content? && s.nodes[n].refId in s.objects ::
          MayCross(s.objects[s.nodes[n].refId], s.nodes[n].workstream))
  }

  /** Records only ever gain reach, and a new record is one no node named before it existed. */
  ghost predicate Loosens(s: State, t: State)
    requires OutputChecks(s) && OutputChecks(t)
  {
    && s.objects.Keys <= t.objects.Keys && s.outputs.Keys <= t.outputs.Keys
    && (forall o | o in s.objects ::
          t.objects[o].workstream.None?
              || (t.objects[o].workstream == s.objects[o].workstream && t.objects[o].scope == s.objects[o].scope))
    && (forall o | o in s.outputs ::
          && t.commands[t.outputs[o].command].workstream == s.commands[s.outputs[o].command].workstream
          && (Crossable(s, o) ==> Crossable(t, o)))
    && (forall n | n in s.nodes ::
          && (s.nodes[n].refId in t.objects ==> s.nodes[n].refId in s.objects)
          && (s.nodes[n].refId in t.outputs ==> s.nodes[n].refId in s.outputs))
  }

  lemma MayReachLoosened(s: State, t: State, refId: Id, target: Option<Id>)
    requires OutputChecks(s) && OutputChecks(t) && Loosens(s, t) && MayReach(s, refId, target)
    requires refId in t.objects ==> refId in s.objects
    requires refId in t.outputs ==> refId in s.outputs
    ensures MayReach(t, refId, target)
  {
  }

  lemma ScopeFrame(s: State, t: State)
    requires Constraints(s) && OutputChecks(t) && EdgeReferences(t.nodes, t.edges)
    requires Extends(s, t) && |s.edges| == |t.edges| && Loosens(s, t) && ScopeSafe(s)
    requires forall n | n in t.nodes && n !in s.nodes && t.nodes[n].role.Content? && t.nodes[n].refId in t.objects ::
               MayCross(t.objects[t.nodes[n].refId], t.nodes[n].workstream)
    ensures ScopeSafe(t)
  {
    forall i | 0 <= i < |t.edges| && t.edges[i].kind.Context?
      ensures MayReach(t, t.nodes[t.edges[i].from].refId, t.nodes[t.edges[i].to].workstream)
    {
      assert SameFact(s.edges[i], t.edges[i]);
      MayReachLoosened(s, t, s.nodes[s.edges[i].from].refId, s.nodes[s.edges[i].to].workstream);
    }
  }

  /** A wire carries `out` into some other workstream than its command's. */
  ghost predicate CarriedAbroad(s: State, out: Id)
    requires out in s.outputs && OutputChecks(s) && EdgeReferences(s.nodes, s.edges)
  {
    exists i | 0 <= i < |s.edges| && s.edges[i].kind.Context? ::
      && s.nodes[s.edges[i].from].refId == out
      && s.nodes[s.edges[i].to].workstream != Some(s.commands[s.outputs[out].command].workstream)
  }

  /**
   * Binding keeps every wire within scope exactly when the output was published, or the object is a world object, or no
   * wire carries the output abroad. A first binding always qualifies.
   */
  lemma BindOutputScopeIff(s: State, out: Id, obj: Id)
    requires Constraints(s) && ScopeSafe(s) && BindOutput(s, out, obj).Done?
    ensures obj in s.objects && Constraints(BindOutput(s, out, obj).state)
    ensures ScopeSafe(BindOutput(s, out, obj).state) <==>
            s.outputs[out].publishedAt.Some? || s.objects[obj].scope.World? || !CarriedAbroad(s, out)
    ensures s.outputs[out].boundObject.None? ==> s.outputs[out].publishedAt.Some? || !CarriedAbroad(s, out)
  {
    var t := BindOutput(s, out, obj).state;
    assert t.outputs[out].boundObject == Some(obj);
    forall o | o in s.outputs && (o != out || s.outputs[out].publishedAt.Some? || s.objects[obj].scope.World?)
      ensures Crossable(s, o) ==> Crossable(t, o)
    {
    }
    if s.outputs[out].publishedAt.Some? || s.objects[obj].scope.World? {
      ScopeFrame(s, t);
    } else {
      BindLocally(s, t, out);
    }
  }

  lemma BindLocally(s: State, t: State, out: Id)
    requires Constraints(s) && ScopeSafe(s) && out in s.outputs && out in t.outputs
    requires OutputChecks(t) && t == s.(outputs := s.outputs[out := t.outputs[out]]) && t.outputs.Keys == s.outputs.Keys
    requires t.outputs[out].command == s.outputs[out].command && !Crossable(t, out)
    ensures ScopeSafe(t) <==> !CarriedAbroad(s, out)
  {
    forall i | 0 <= i < |s.edges| && s.edges[i].kind.Context?
      ensures var refId, target := s.nodes[s.edges[i].from].refId, s.nodes[s.edges[i].to].workstream;
              MayReach(t, refId, target) <==>
                  (refId != out || target == Some(s.commands[s.outputs[out].command].workstream))
    {
      assert MayReach(s, s.nodes[s.edges[i].from].refId, s.nodes[s.edges[i].to].workstream);
    }
    if CarriedAbroad(s, out) {
      var i :| 0 <= i < |s.edges| && s.edges[i].kind.Context? && s.nodes[s.edges[i].from].refId == out
               && s.nodes[s.edges[i].to].workstream != Some(s.commands[s.outputs[out].command].workstream);
      assert !MayReach(t, t.nodes[t.edges[i].from].refId, t.nodes[t.edges[i].to].workstream);
    }
  }

  /** Everything that already stands for `id` on the board is in, and wired into, workstream `w` only. */
  ghost predicate KeptIn(s: State, id: Id, w: Id)
    requires EdgeReferences(s.nodes, s.edges)
  {
    && (forall n | n in s.nodes && s.nodes[n].role.Content? && s.nodes[n].refId == id ::
        s.nodes[n].workstream == Some(w))
    && (forall i | 0 <= i < |s.edges| && s.edges[i].kind.Context? && s.nodes[s.edges[i].from].refId == id ::
          s.nodes[s.edges[i].to].workstream == Some(w))
  }

  /**
   * Writing an object after the nodes that name it is safe exactly when it is a world object or they stayed at home.
   */
  lemma WriteObjectScopeIff(s: State, id: Id, workstream: Option<Id>)
    requires Constraints(s) && ScopeSafe(s) && id !in s.objects
    ensures Constraints(WriteObject(s, id, workstream))
    ensures ScopeSafe(WriteObject(s, id, workstream)) <==> workstream.None? || KeptIn(s, id, workstream.value)
  {
    var t := WriteObject(s, id, workstream);
    forall o | o in s.outputs
      ensures Crossable(s, o) <==> Crossable(t, o)
    {
    }
    forall i | 0 <= i < |s.edges| && s.edges[i].kind.Context?
      ensures var refId, target := s.nodes[s.edges[i].from].refId, s.nodes[s.edges[i].to].workstream;
              MayReach(t, refId, target) <==> (refId != id || workstream.None? || target == workstream)
    {
      assert MayReach(s, s.nodes[s.edges[i].from].refId, s.nodes[s.edges[i].to].workstream);
    }
    if workstream.Some? && ScopeSafe(t) {
      forall n | n in s.nodes && s.nodes[n].role.Content? && s.nodes[n].refId == id
        ensures s.nodes[n].workstream == workstream
      {
        assert n in t.nodes && MayCross(t.objects[id], t.nodes[n].workstream);
      }
      forall i | 0 <= i < |s.edges| && s.edges[i].kind.Context? && s.nodes[s.edges[i].from].refId == id
        ensures s.nodes[s.edges[i].to].workstream == workstream
      {
        assert MayReach(t, t.nodes[t.edges[i].from].refId, t.nodes[t.edges[i].to].workstream);
      }
    }
  }

  // ----- no agent authors into its own chain

  /** The session a context row targets, when its target is one. */
  function TargetSession(s: State, e: EdgeRow): Option<SessionId>
    requires e.to in s.nodes
  {
    if s.nodes[e.to].role.Session? then Some(s.nodes[e.to].refId) else None
  }

  ghost predicate ChainSafe(s: State)
    requires EdgeReferences(s.nodes, s.edges) && Rooted(s.lineage)
  {
    forall i | 0 <= i < |s.edges| && s.edges[i].kind.Context? ::
      MayAuthor(s.lineage, s.edges[i].kind.author, TargetSession(s, s.edges[i]))
  }

  /** The row was authored by one of the two sessions into the other. */
  predicate Joins(s: State, e: EdgeRow, a: SessionId, b: SessionId)
    requires e.to in s.nodes
  {
    && e.kind.Context?
    && ((e.kind.author == BySession(a) && TargetSession(s, e) == Some(b))
        || (e.kind.author == BySession(b) && TargetSession(s, e) == Some(a)))
  }

  /**
   * Recording a new session under `parent` keeps the rule for every edge ever authored exactly when no edge already
   * joins that session with its parent or one of the parent's ancestors.
   */
  lemma RecordLineageChainIff(s: State, id: SessionId, parent: Option<SessionId>)
    requires EdgeReferences(s.nodes, s.edges) && Rooted(s.lineage) && ChainSafe(s)
    requires !Recorded(s.lineage, id) && parent != Some(id) && RecordSessionLineage(s, id, parent).Done?
    ensures var t := RecordSessionLineage(s, id, parent).state;
            Rooted(t.lineage) &&
            (ChainSafe(t) <==>
             (parent.None? || forall i, up | 0 <= i < |s.edges| && Joins(s, s.edges[i], id, up) ::
                 !Below(s.lineage, parent.value, up)))
  {
    RecordKeepsRooted(s.lineage, id, parent);
    var t := RecordSessionLineage(s, id, parent).state;
    var rows := t.lineage;
    forall a, b | a != id && b != id
      ensures SameChain(rows, a, b) <==> SameChain(s.lineage, a, b)
    {
      RecordKeepsSameChain(s.lineage, id, parent, a, b);
    }
    forall up | up != id
      ensures SameChain(rows, id, up) <==> parent.Some? && Below(s.lineage, parent.value, up)
    {
      NewLeafChain(s.lineage, id, parent, up);
    }
    forall i | 0 <= i < |s.edges| && s.edges[i].kind.Context?
      ensures MayAuthor(s.lineage, s.edges[i].kind.author, TargetSession(s, s.edges[i]))
      ensures t.edges[i] == s.edges[i] && TargetSession(t, s.edges[i]) == TargetSession(s, s.edges[i])
    {
    }
    if parent.Some? && ChainSafe(t) {
      forall i, up | 0 <= i < |s.edges| && Joins(s, s.edges[i], id, up)
        ensures !Below(s.lineage, parent.value, up)
      {
        assert MayAuthor(rows, t.edges[i].kind.author, TargetSession(t, t.edges[i]));
        assert MayAuthor(s.lineage, s.edges[i].kind.author, TargetSession(s, s.edges[i]));
      }
    }
    if parent.None? || forall i, up | 0 <= i < |s.edges| && Joins(s, s.edges[i], id, up) ::
        !Below(s.lineage, parent.value, up) {
      forall i | 0 <= i < |t.edges| && t.edges[i].kind.Context?
        ensures MayAuthor(rows, t.edges[i].kind.author, TargetSession(t, t.edges[i]))
      {
        var e := s.edges[i];
        if e.kind.author.BySession? && TargetSession(s, e).Some? {
          var a, b := e.kind.author.session, TargetSession(s, e).value;
          if a == id {
            assert Joins(s, e, id, b) && !SameChain(rows, id, b);
          } else if b == id {
            assert Joins(s, e, id, a) && !SameChain(rows, id, a);
          }
        }
      }
    }
  }

  /** The chain of a session recorded last: itself, its parent, and the parent's ancestors. */
  lemma NewLeafChain(rows: LineageTable, id: SessionId, parent: Option<SessionId>, up: SessionId)
    requires Rooted(rows) && Rooted(rows + [LineageRow(id, parent)]) && !Recorded(rows, id) && up != id
        && parent != Some(id)
    ensures SameChain(rows + [LineageRow(id, parent)], id, up) <==> parent.Some? && Below(rows, parent.value, up)
  {
    var row := LineageRow(id, parent);
    PositionAppended(rows, row, id);
    LeafKeepsAncestors(rows, row, up);
    assert (rows + [row])[|rows|] == row;
    assert id !in Ancestors(rows, up);
    if parent.Some? {
      LeafKeepsAncestors(rows, row, parent.value);
    }
  }

  // ----- no wire to a card that is not there

  /** Every live edge, context or provenance, joins two live nodes. */
  ghost predicate LiveEnds(s: State)
    requires EdgeReferences(s.nodes, s.edges)
  {
    forall i | 0 <= i < |s.edges| && s.edges[i].deletedAt.None? ::
      s.nodes[s.edges[i].from].deletedAt.None? && s.nodes[s.edges[i].to].deletedAt.None?
  }

  predicate EndsLive(s: State, e: EdgeRow)
    requires e.from in s.nodes && e.to in s.nodes
  {
    s.nodes[e.from].deletedAt.None? && s.nodes[e.to].deletedAt.None?
  }

  lemma RestoreEdgeLiveEndsIff(s: State, id: Id)
    requires Constraints(s) && LiveEnds(s) && RestoreEdge(s, id).Done?
    ensures LiveEnds(RestoreEdge(s, id).state) <==> EndsLive(s, s.edges[EdgeAt(s.edges, id)])
  {
    var t := RestoreEdge(s, id).state;
    var k := EdgeAt(s.edges, id);
    assert t.edges[k].deletedAt.None?;
    assert forall i | 0 <= i < |s.edges| && i != k :: t.edges[i] == s.edges[i];
  }

  /**
   * A restored node's wires are sound exactly when the neighbours that went on living with it are still on the board.
   */
  lemma RestoreNodeLiveEndsIff(s: State, n: NodeId)
    requires Constraints(s) && LiveEnds(s) && RestoreNode(s, n).Done? && s.nodes[n].deletedAt.Some?
    ensures LiveEnds(RestoreNode(s, n).state) <==>
            forall i | 0 <= i < |s.edges| && s.edges[i].Touches(n) && s.edges[i].deletedAt == s.nodes[n].deletedAt ::
              && (s.edges[i].from == n || s.nodes[s.edges[i].from].deletedAt.None?)
              && (s.edges[i].to == n || s.nodes[s.edges[i].to].deletedAt.None?)
  {
    var t := RestoreNode(s, n).state;
    var touched := Through(s.edges, n, s.nodes[n].deletedAt);
    forall i | 0 <= i < |s.edges|
      ensures s.edges[i].id in touched <==> s.edges[i].Touches(n) && s.edges[i].deletedAt == s.nodes[n].deletedAt
    {
      if s.edges[i].id in touched {
        var j :| 0 <= j < |s.edges| && s.edges[j].id == s.edges[i].id && s.edges[j].Touches(n)
            && s.edges[j].deletedAt == s.nodes[n].deletedAt;
        assert i == j;
      }
    }
    if LiveEnds(t) {
      forall i | 0 <= i < |s.edges| && s.edges[i].Touches(n) && s.edges[i].deletedAt == s.nodes[n].deletedAt
        ensures s.edges[i].from == n || s.nodes[s.edges[i].from].deletedAt.None?
        ensures s.edges[i].to == n || s.nodes[s.edges[i].to].deletedAt.None?
      {
        assert t.edges[i].deletedAt.None?;
      }
    }
  }
}
