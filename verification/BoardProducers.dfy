/** Which command stands behind a content node, told by the provenance rows alone (packages/db/src/graph-store.ts). */
module BoardProducers {
  import opened Wrappers
  import opened Reachability
  import opened Edges
  import opened Lineage
  import opened Board

  /** Row `j` is provenance into `x` from a command. */
  predicate FromCommand(s: State, x: NodeId, j: nat) {
    j < |s.edges| && s.edges[j].kind.Provenance? && s.edges[j].to == x
    && s.edges[j].from in s.nodes && s.nodes[s.edges[j].from].role.Command?
  }

  /** Of the provenance rows into session `x`, the first from a command comes from `c`. */
  ghost predicate Started(s: State, x: NodeId, c: NodeId) {
    exists j: nat :: FromCommand(s, x, j) && s.edges[j].from == c && forall i: nat | i < j :: !FromCommand(s, x, i)
  }

  /** Provenance row `k` into `content` gives the credit to command `c`: its source, or the starter of its source. */
  ghost predicate Credits(s: State, content: NodeId, k: nat, c: NodeId) {
    && k < |s.edges| && s.edges[k].kind.Provenance? && s.edges[k].to == content && s.edges[k].from in s.nodes
    && match s.nodes[s.edges[k].from].role
       case Command => c == s.edges[k].from
       case Session => Started(s, s.edges[k].from, c)
       case Content => false
  }

  /** The first row into `content` that credits any command credits `c`. */
  ghost predicate FirstCredit(s: State, content: NodeId, c: NodeId) {
    exists k: nat :: Credits(s, content, k, c) && forall i: nat, d: nat | i < k :: !Credits(s, content, i, d)
  }

  lemma {:induction false} StartFound(s: State, x: NodeId, i: nat) returns (j: nat)
    requires i <= |s.edges|
    ensures StartingCommand(s, x, i).Some? ==>
      && i <= j && FromCommand(s, x, j) && StartingCommand(s, x, i) == Some(s.edges[j].from)
      && forall m: nat | i <= m < j :: !FromCommand(s, x, m)
    ensures StartingCommand(s, x, i).None? ==> forall m: nat | i <= m :: !FromCommand(s, x, m)
    decreases |s.edges| - i
  {
    j := i;
    if i < |s.edges| && !FromCommand(s, x, i) {
      j := StartFound(s, x, i + 1);
    }
  }

  lemma StartedIff(s: State, x: NodeId, c: NodeId)
    ensures StartingCommand(s, x, 0) == Some(c) <==> Started(s, x, c)
  {
    var j := StartFound(s, x, 0);
  }

  /** What one row credits is what the lookup finds behind its source. */
  lemma CreditsIff(s: State, content: NodeId, k: nat, c: NodeId)
    requires k < |s.edges| && s.edges[k].kind.Provenance? && s.edges[k].to == content
    ensures Credits(s, content, k, c) <==> CommandBehind(s, s.edges[k].from) == Some(c)
  {
    StartedIff(s, s.edges[k].from, c);
  }

  lemma {:induction false} CreditFound(s: State, content: NodeId, i: nat) returns (k: nat)
    requires i <= |s.edges|
    ensures ProducerFrom(s, content, i).Some? ==>
      && i <= k && Credits(s, content, k, ProducerFrom(s, content, i).value)
      && forall m: nat, d: nat | i <= m < k :: !Credits(s, content, m, d)
    ensures ProducerFrom(s, content, i).None? ==> forall m: nat, d: nat | i <= m :: !Credits(s, content, m, d)
    decreases |s.edges| - i
  {
    k := i;
    if i < |s.edges| {
      forall d: nat
        ensures Credits(s, content, i, d) <==>
          s.edges[i].kind.Provenance? && s.edges[i].to == content && CommandBehind(s, s.edges[i].from) == Some(d)
      {
        if s.edges[i].kind.Provenance? && s.edges[i].to == content {
          CreditsIff(s, content, i, d);
        }
      }
      hide Credits, CommandBehind;
      if !(s.edges[i].kind.Provenance? && s.edges[i].to == content && CommandBehind(s, s.edges[i].from).Some?) {
        k := CreditFound(s, content, i + 1);
      }
    }
  }

  lemma OneCredit(s: State, content: NodeId, k: nat, c: NodeId, d: NodeId)
    requires Credits(s, content, k, c) && Credits(s, content, k, d)
    ensures c == d
  {
    CreditsIff(s, content, k, c);
    CreditsIff(s, content, k, d);
  }

  /** Content is produced by the command its first crediting row credits, and by none if no row credits one. */
  lemma ProducerIff(s: State, content: NodeId, c: NodeId)
    ensures ProducerOf(s, content) == Some(c) <==> FirstCredit(s, content, c)
    ensures ProducerOf(s, content).None? <==> forall k: nat, d: nat :: !Credits(s, content, k, d)
  {
    var k := CreditFound(s, content, 0);
    hide Credits;
    if FirstCredit(s, content, c) {
      var m: nat :| Credits(s, content, m, c) && forall i: nat, d: nat | i < m :: !Credits(s, content, i, d);
      if ProducerOf(s, content).Some? && k == m {
        OneCredit(s, content, k, c, ProducerOf(s, content).value);
      }
    }
  }

  // ----- topology in rows

  /**
   * A command feeds another exactly by a live context row into it, from content it is the first to be credited with.
   */
  lemma FeedsIff(s: State, consumer: NodeId, producer: NodeId)
    ensures (consumer, producer) in Feeds(s) <==>
      exists i: nat | i < |s.edges| && s.edges[i].kind.Context? && s.edges[i].deletedAt.None? ::
        && s.edges[i].to == consumer && consumer in s.nodes && s.nodes[consumer].role.Command?
        && FirstCredit(s, s.edges[i].from, producer)
  {
    forall i: nat | i < |s.edges|
      ensures WirePair(s, i) == Some((consumer, producer)) <==>
        && s.edges[i].kind.Context? && s.edges[i].to == consumer && consumer in s.nodes
        && s.nodes[consumer].role.Command? && FirstCredit(s, s.edges[i].from, producer)
    {
      ProducerIff(s, s.edges[i].from, producer);
    }
    hide FirstCredit, ProducerOf;
    if (consumer, producer) in Feeds(s) {
      var i: nat :| i < |s.edges| && s.edges[i].deletedAt.None? && WirePair(s, i) == Some((consumer, producer));
    }
  }

  /** A wire back into the command behind its content is refused as a cycle, once nothing else is wrong with it. */
  lemma WireBackIsRefused(s: State, input: ContextInput, freshId: Id)
    requires Constraints(s) && Rooted(s.lineage) && RefuseEarly(s, input).None?
    requires input.edgeId.Some? ==> forall i | 0 <= i < |s.edges| :: s.edges[i].id != input.edgeId.value
    requires FirstCredit(s, input.from, input.to)
    ensures AddContextEdge(s, input, freshId) == Refused(WouldClose)
  {
    ProducerIff(s, input.from, input.to);
    CreditedIsCommand(s, input.from, input.to);
    ReachesSelf(Feeds(s), input.to);
    hide FirstCredit, ProducerOf, Feeds, RefuseEarly;
  }

  lemma CreditedIsCommand(s: State, content: NodeId, c: NodeId)
    requires FirstCredit(s, content, c)
    ensures c in s.nodes && s.nodes[c].role.Command?
  {
  }

  /** And so is one that comes back by way of a second command. */
  lemma WireAroundIsRefused(s: State, input: ContextInput, freshId: Id, i: nat)
    requires Constraints(s) && Rooted(s.lineage) && RefuseEarly(s, input).None?
    requires input.edgeId.Some? ==> forall e | 0 <= e < |s.edges| :: s.edges[e].id != input.edgeId.value
    requires i < |s.edges| && s.edges[i].kind.Context? && s.edges[i].deletedAt.None?
    requires FirstCredit(s, s.edges[i].from, input.to) && FirstCredit(s, input.from, s.edges[i].to)
    ensures AddContextEdge(s, input, freshId) == Refused(WouldClose)
  {
    var c, d := input.to, s.edges[i].to;
    CreditedIsCommand(s, s.edges[i].from, c);
    CreditedIsCommand(s, input.from, d);
    FeedsIff(s, d, c);
    ProducerIff(s, input.from, d);
    ReachesSelf(Feeds(s), c);
    ReachesStep(Feeds(s), d, c, c);
    hide FirstCredit, ProducerOf, Feeds, RefuseEarly;
  }

  /**
   * What a command's session creates is that command's: wired on it feeds other commands from there, and it can never
   * be wired back.
   */
  lemma SessionsObjectIsTheCommands(s: State, c: NodeId, session: NodeId, made: NodeId, j: nat, k: nat)
    requires FromCommand(s, session, j) && s.edges[j].from == c && forall i: nat | i < j :: !FromCommand(s, session, i)
    requires session in s.nodes && s.nodes[session].role.Session?
    requires k < |s.edges| && s.edges[k].kind.Provenance? && s.edges[k].from == session && s.edges[k].to == made
    requires forall i: nat | i < k :: !(s.edges[i].kind.Provenance? && s.edges[i].to == made)
    ensures FirstCredit(s, made, c)
    ensures forall i: nat | i < |s.edges| && s.edges[i].LiveContext() && s.edges[i].from == made
                            && s.edges[i].to in s.nodes && s.nodes[s.edges[i].to].role.Command? ::
      (s.edges[i].to, c) in Feeds(s)
    ensures Constraints(s) && Rooted(s.lineage) ==> forall author, freshId |
      RefuseEarly(s, ContextInput(None, made, c, author, None)).None? ::
        AddContextEdge(s, ContextInput(None, made, c, author, None), freshId) == Refused(WouldClose)
  {
    assert Credits(s, made, k, c) by {
      assert Started(s, session, c);
    }
    assert forall i: nat, d: nat | i < k :: !Credits(s, made, i, d);
    assert FirstCredit(s, made, c);
    hide Credits, FirstCredit;
    forall i: nat | i < |s.edges| && s.edges[i].LiveContext() && s.edges[i].from == made
                    && s.edges[i].to in s.nodes && s.nodes[s.edges[i].to].role.Command?
      ensures (s.edges[i].to, c) in Feeds(s)
    {
      FeedsIff(s, s.edges[i].to, c);
    }
    if Constraints(s) && Rooted(s.lineage) {
      forall author, freshId | RefuseEarly(s, ContextInput(None, made, c, author, None)).None?
        ensures AddContextEdge(s, ContextInput(None, made, c, author, None), freshId) == Refused(WouldClose)
      {
        WireBackIsRefused(s, ContextInput(None, made, c, author, None), freshId);
      }
    }
  }
}
