/** Initiation chains: who started which session (packages/core/src/lineage.ts). */
module Lineage {
  import opened Wrappers

  type SessionId = nat

  datatype Author = Human | BySession(session: SessionId)

  /** One `session_lineage` row; a null parent is a human gesture. */
  datatype LineageRow = LineageRow(session: SessionId, initiatedBy: Option<SessionId>)

  /** The table in insertion order. */
  type LineageTable = seq<LineageRow>

  /** Where a session's row stands, or the table's length when it has none. */
  function Position(rows: LineageTable, s: SessionId): (k: nat)
    ensures k <= |rows|
    ensures k < |rows| ==> rows[k].session == s
    ensures forall i | 0 <= i < k :: rows[i].session != s
  {
    if rows == [] then 0
    else if rows[0].session == s then 0
    else 1 + Position(rows[1..], s)
  }

  predicate Recorded(rows: LineageTable, s: SessionId) {
    Position(rows, s) < |rows|
  }

  function ParentOf(rows: LineageTable, s: SessionId): Option<SessionId> {
    var k := Position(rows, s);
    if k < |rows| then rows[k].initiatedBy else None
  }

  /** The primary key holds, and every parent was recorded before its child. */
  ghost predicate Rooted(rows: LineageTable) {
    && (forall i, j | 0 <= i < j < |rows| :: rows[i].session != rows[j].session)
    && (forall i | 0 <= i < |rows| && rows[i].initiatedBy.Some? :: Position(rows, rows[i].initiatedBy.value) < i)
  }

  /** The insert: an existing row wins, and the foreign key admits a recorded parent or the row itself. */
  function RecordLineage(rows: LineageTable, s: SessionId, parent: Option<SessionId>): Option<LineageTable> {
    if Recorded(rows, s) then Some(rows)
    else if parent.Some? && parent.value != s && !Recorded(rows, parent.value) then None
    else Some(rows + [LineageRow(s, parent)])
  }

  /** Everyone who had a part in starting a session, its own starter first. */
  ghost function Ancestors(rows: LineageTable, s: SessionId): (chain: seq<SessionId>)
    requires Rooted(rows)
    ensures forall x | x in chain :: Recorded(rows, s) && Position(rows, x) < Position(rows, s)
    decreases Position(rows, s)
  {
    match ParentOf(rows, s)
    case None => []
    case Some(p) => [p] + Ancestors(rows, p)
  }

  /** `a` is `b`, or was started, however indirectly, by `b`. */
  ghost predicate Below(rows: LineageTable, a: SessionId, b: SessionId)
    requires Rooted(rows)
  {
    a == b || b in Ancestors(rows, a)
  }

  ghost predicate SameChain(rows: LineageTable, a: SessionId, b: SessionId)
    requires Rooted(rows)
  {
    Below(rows, a, b) || Below(rows, b, a)
  }

  /** Each session of the walk was started by the next one, and none repeats. */
  ghost predicate Walk(rows: LineageTable, up: seq<SessionId>) {
    && (forall i | 0 <= i < |up| - 1 :: ParentOf(rows, up[i]) == Some(up[i + 1]))
    && (forall i, j | 0 <= i < j < |up| :: up[i] != up[j])
  }

  /** Follow parents until there is none or one repeats; any table at all is accepted. */
  method AncestorsOf(rows: LineageTable, s: SessionId) returns (chain: seq<SessionId>)
    ensures Walk(rows, [s] + chain)
    ensures Rooted(rows) ==> chain == Ancestors(rows, s)
  {
    chain := [];
    var seen := {s};
    var current := ParentOf(rows, s);
    ghost var all := {s} + (set i | 0 <= i < |rows| && rows[i].initiatedBy.Some? :: rows[i].initiatedBy.value);
    ghost var up := [s];
    while current.Some? && current.value !in seen
      invariant up == [s] + chain && Walk(rows, up)
      invariant seen == set x | x in up
      invariant current == ParentOf(rows, up[|up| - 1])
      invariant seen <= all
      decreases all - seen
    {
      var next := ParentOf(rows, current.value);
      assert current.value in all;
      ghost var longer := up + [current.value];
      forall i | 0 <= i < |longer| - 1
        ensures ParentOf(rows, longer[i]) == Some(longer[i + 1])
      {
        assert i < |up| - 1 ==> ParentOf(rows, up[i]) == Some(up[i + 1]);
      }
      up := longer;
      chain := chain + [current.value];
      seen := seen + {current.value};
      current := next;
    }
    if Rooted(rows) {
      WalkEndsAtTop(rows, up);
      WalkIsAncestors(rows, up);
      assert up[1..] == chain;
    }
  }

  /** In a rooted table a walk climbs strictly, so one that stops at a repeat stopped at the top. */
  lemma WalkEndsAtTop(rows: LineageTable, up: seq<SessionId>)
    requires Rooted(rows) && Walk(rows, up) && |up| > 0
    requires ParentOf(rows, up[|up| - 1]).Some? ==> ParentOf(rows, up[|up| - 1]).value in up
    ensures ParentOf(rows, up[|up| - 1]).None?
  {
    if ParentOf(rows, up[|up| - 1]).Some? {
      var k :| 0 <= k < |up| && up[k] == ParentOf(rows, up[|up| - 1]).value;
      WalkClimbs(rows, up, k);
    }
  }

  lemma {:induction false} WalkIsAncestors(rows: LineageTable, up: seq<SessionId>)
    requires Rooted(rows) && Walk(rows, up) && |up| > 0 && ParentOf(rows, up[|up| - 1]).None?
    ensures up[1..] == Ancestors(rows, up[0])
    decreases |up|
  {
    if |up| > 1 {
      var rest := up[1..];
      assert forall i | 0 <= i < |rest| :: rest[i] == up[i + 1];
      assert ParentOf(rows, up[0]) == Some(up[1]);
      WalkIsAncestors(rows, rest);
      assert up[1..] == [up[1]] + rest[1..];
    }
  }

  lemma {:induction false} WalkClimbs(rows: LineageTable, up: seq<SessionId>, k: nat)
    requires Rooted(rows) && Walk(rows, up) && k < |up|
    ensures Position(rows, up[|up| - 1]) <= Position(rows, up[k])
    decreases |up| - k
  {
    if k < |up| - 1 {
      assert ParentOf(rows, up[k]) == Some(up[k + 1]);
      WalkClimbs(rows, up, k + 1);
    }
  }

  method IsInSameChain(rows: LineageTable, a: SessionId, b: SessionId) returns (same: bool)
    ensures Rooted(rows) ==> (same <==> SameChain(rows, a, b))
  {
    if a == b {
      return true;
    }
    var above := AncestorsOf(rows, a);
    if b in above {
      return true;
    }
    var aboveB := AncestorsOf(rows, b);
    return a in aboveB;
  }

  /** No agent authors intent into its own chain; humans and session-less targets are unconstrained. */
  method CheckAuthoring(rows: LineageTable, author: Author, target: Option<SessionId>) returns (allowed: bool)
    ensures Rooted(rows) ==> (allowed <==> MayAuthor(rows, author, target))
  {
    if author.Human? || target.None? {
      return true;
    }
    var same := IsInSameChain(rows, author.session, target.value);
    return !same;
  }

  ghost predicate MayAuthor(rows: LineageTable, author: Author, target: Option<SessionId>)
    requires Rooted(rows)
  {
    author.BySession? && target.Some? ==> !SameChain(rows, author.session, target.value)
  }

  // ----- the forest

  /** Every chain ends at a session no session started. */
  lemma {:induction false} ChainEndsAtHuman(rows: LineageTable, s: SessionId)
    requires Rooted(rows)
    ensures var up := [s] + Ancestors(rows, s); ParentOf(rows, up[|up| - 1]).None?
    decreases Position(rows, s)
  {
    match ParentOf(rows, s)
    case None =>
    case Some(p) => ChainEndsAtHuman(rows, p);
  }

  lemma {:induction false} BelowIsTransitive(rows: LineageTable, a: SessionId, b: SessionId, c: SessionId)
    requires Rooted(rows) && Below(rows, a, b) && Below(rows, b, c)
    ensures Below(rows, a, c)
    decreases Position(rows, a)
  {
    if a != b {
      BelowIsTransitive(rows, ParentOf(rows, a).value, b, c);
    }
  }

  lemma BelowIsAntisymmetric(rows: LineageTable, a: SessionId, b: SessionId)
    requires Rooted(rows) && Below(rows, a, b) && Below(rows, b, a)
    ensures a == b
  {
  }

  /** The sessions above one session are in a line: this is what makes the order a forest. */
  lemma {:induction false} AboveIsLinear(rows: LineageTable, a: SessionId, b: SessionId, c: SessionId)
    requires Rooted(rows) && Below(rows, a, b) && Below(rows, a, c)
    ensures SameChain(rows, b, c)
    decreases Position(rows, a)
  {
    if a != b && a != c {
      AboveIsLinear(rows, ParentOf(rows, a).value, b, c);
    }
  }

  /** An accepted insert keeps the table rooted except when a new session names itself as its own parent. */
  lemma RecordKeepsRooted(rows: LineageTable, s: SessionId, parent: Option<SessionId>)
    requires Rooted(rows) && RecordLineage(rows, s, parent).Some?
    ensures Rooted(RecordLineage(rows, s, parent).value) <==> (Recorded(rows, s) || parent != Some(s))
  {
    var t := RecordLineage(rows, s, parent).value;
    if !Recorded(rows, s) {
      forall x
        ensures Position(t, x) == if Recorded(rows, x) then Position(rows, x) else if x == s then |rows| else |rows| + 1
      {
        PositionAppended(rows, LineageRow(s, parent), x);
      }
      assert t[|rows|] == LineageRow(s, parent);
      forall i | 0 <= i < |rows| && rows[i].initiatedBy.Some?
        ensures t[i].initiatedBy.Some? && Position(t, t[i].initiatedBy.value) < i
      {
      }
      if parent == Some(s) {
        assert !(Position(t, t[|rows|].initiatedBy.value) < |rows|);
      }
    }
  }

  lemma {:induction false} PositionAppended(rows: LineageTable, row: LineageRow, x: SessionId)
    ensures Position(rows + [row], x) ==
            if Recorded(rows, x) then Position(rows, x) else if x == row.session then |rows| else |rows| + 1
  {
    if rows != [] {
      assert (rows + [row])[1..] == rows[1..] + [row];
      PositionAppended(rows[1..], row, x);
    }
  }

  /** Adding a session above nobody changes the chain of no other session. */
  lemma {:induction false} LeafKeepsAncestors(rows: LineageTable, row: LineageRow, a: SessionId)
    requires Rooted(rows) && Rooted(rows + [row]) && a != row.session
    ensures Ancestors(rows + [row], a) == Ancestors(rows, a)
    decreases Position(rows, a)
  {
    PositionAppended(rows, row, a);
    match ParentOf(rows, a)
    case None =>
    case Some(p) =>
      var k := Position(rows, a);
      assert rows[k] == (rows + [row])[k];
      PositionAppended(rows, row, p);
      assert (rows + [row])[|rows|] == row && (rows + [row])[Position(rows, p)] == rows[Position(rows, p)];
      LeafKeepsAncestors(rows, row, p);
  }

  /** Whether a session may author into another is settled for good once both are recorded. */
  lemma RecordKeepsSameChain(rows: LineageTable, s: SessionId, parent: Option<SessionId>, a: SessionId, b: SessionId)
    requires Rooted(rows) && RecordLineage(rows, s, parent).Some?
    requires Rooted(RecordLineage(rows, s, parent).value)
    requires Recorded(rows, s) || (a != s && b != s)
    ensures SameChain(RecordLineage(rows, s, parent).value, a, b) <==> SameChain(rows, a, b)
  {
    if !Recorded(rows, s) {
      LeafKeepsAncestors(rows, LineageRow(s, parent), a);
      LeafKeepsAncestors(rows, LineageRow(s, parent), b);
    }
  }
}
