/**
 * The tables of the graph board and what each gesture does to them
 * (packages/db/src/graph-store.ts, packages/db/src/command-store.ts).
 *
 * Every gesture is a function from the tables to the tables it commits or to
 * the reason it throws. The classes in GraphStore.dfy and CommandStore.dfy
 * carry the gestures out in place and are proved to agree with these functions.
 */
module Board {
  import opened Wrappers
  import opened Reachability
  import opened Edges
  import opened Lineage

  type Id = nat
  type Time = int

  // ----- rows

  datatype NodeRow = NodeRow(role: NodeRole, refId: Id, workstream: Option<Id>, running: bool, deletedAt: Option<Time>)

  datatype ProvenanceKind =
    | CommandDeclaresOutput | CommandStartedSession | SessionCreatedObject
    | SessionForkedFrom | SessionHandoff | SessionSibling | SessionDelegated

  datatype EdgeKind = Context(author: Author, ordinal: int) | Provenance(relation: ProvenanceKind)

  datatype EdgeRow = EdgeRow(id: Id, kind: EdgeKind, from: NodeId, to: NodeId, deletedAt: Option<Time>) {
    predicate LiveContext() {
      kind.Context? && deletedAt.None?
    }

    predicate Touches(n: NodeId) {
      from == n || to == n
    }
  }

  datatype ObjectScope = World | Local

  datatype ObjectRow = ObjectRow(scope: ObjectScope, workstream: Option<Id>, deletedAt: Option<Time>)

  datatype CommandRow = CommandRow(workstream: Id, deletedAt: Option<Time>)

  datatype OutputRow = OutputRow(command: Id, publishedAt: Option<Time>, boundObject: Option<Id>,
      brokenAt: Option<Time>)

  /** The tables; edges keep their insertion order, which is the order queries without ORDER BY return. */
  datatype State = State(
    nodes: map<NodeId, NodeRow>,
    edges: seq<EdgeRow>,
    objects: map<Id, ObjectRow>,
    commands: map<Id, CommandRow>,
    outputs: map<Id, OutputRow>,
    sessions: map<SessionId, Option<Time>>,
    lineage: LineageTable)

  const EMPTY := State(map[], [], map[], map[], map[], map[], [])

  // ----- what the schema enforces

  predicate EdgeKeys(edges: seq<EdgeRow>) {
    forall i, j | 0 <= i < j < |edges| :: edges[i].id != edges[j].id
  }

  /** The two partial unique indexes over live context edges: (from, to) and (to, ordinal). */
  predicate LiveIndexes(edges: seq<EdgeRow>) {
    forall i, j | 0 <= i < j < |edges| && edges[i].LiveContext() && edges[j].LiveContext()
        && edges[i].to == edges[j].to ::
      edges[i].from != edges[j].from && edges[i].kind.ordinal != edges[j].kind.ordinal
  }

  predicate EdgeReferences(nodes: map<NodeId, NodeRow>, edges: seq<EdgeRow>) {
    forall i | 0 <= i < |edges| :: edges[i].from in nodes && edges[i].to in nodes
  }

  predicate NodeKeys(nodes: map<NodeId, NodeRow>) {
    forall m, n | m in nodes && n in nodes && nodes[m].role == nodes[n].role && nodes[m].refId == nodes[n].refId ::
        m == n
  }

  predicate ObjectChecks(objects: map<Id, ObjectRow>) {
    forall o | o in objects :: objects[o].scope.Local? <==> objects[o].workstream.Some?
  }

  predicate OutputChecks(s: State) {
    forall o | o in s.outputs ::
      && s.outputs[o].command in s.commands
      && (s.outputs[o].boundObject.Some? ==> s.outputs[o].boundObject.value in s.objects && s.outputs[o].brokenAt.None?)
  }

  predicate Constraints(s: State) {
    EdgeKeys(s.edges) && LiveIndexes(s.edges) && EdgeReferences(s.nodes, s.edges) && NodeKeys(s.nodes)
    && ObjectChecks(s.objects) && OutputChecks(s)
  }

  // ----- outcomes

  datatype Refusal =
    | NotFound
    | NodeDeleted
    | SubjectDeleted
    | EdgeIdCollision
    | EdgeDeleted
    | Illegal(connection: ConnectionRefusal)
    | LocalObject
    | BrokenOutput
    | LocalBoundOutput
    | UnpublishedOutput
    | OwnChain
    | Duplicate
    | WouldClose
    | ProvenanceNotAuthored
    | BadReorder
    | AlreadyBound
    | ConstraintViolated

  datatype Outcome<T> = Done(state: State, value: T) | Refused(reason: Refusal)

  /** A write lands when the schema accepts the tables it leaves behind. */
  function Commit<T>(s: State, value: T): Outcome<T> {
    if Constraints(s) then Done(s, value) else Refused(ConstraintViolated)
  }

  /** What every committed wiring gesture leaves: lawful tables, and the records it does not write as they were. */
  predicate Lawful(s: State, t: State) {
    Constraints(t) && t.lineage == s.lineage && t.objects == s.objects && t.sessions == s.sessions
  }

  // ----- queries

  /** Where the row with this id stands, or the table's length. */
  function EdgeAt(edges: seq<EdgeRow>, id: Id): (k: nat)
    ensures k <= |edges|
    ensures k < |edges| ==> edges[k].id == id
    ensures forall i | 0 <= i < k :: edges[i].id != id
  {
    if edges == [] then 0 else if edges[0].id == id then 0 else 1 + EdgeAt(edges[1..], id)
  }

  ghost function NodeFor(s: State, role: NodeRole, refId: Id): (n: Option<NodeId>)
    ensures n.Some? ==> n.value in s.nodes && s.nodes[n.value].role == role && s.nodes[n.value].refId == refId
    ensures n.None? ==> forall m | m in s.nodes :: !(s.nodes[m].role == role && s.nodes[m].refId == refId)
  {
    if m :| m in s.nodes && s.nodes[m].role == role && s.nodes[m].refId == refId then Some(m) else None
  }

  function RoleOf(s: State, n: NodeId): Option<NodeRole> {
    if n in s.nodes then Some(s.nodes[n].role) else None
  }

  /** The command whose provenance a session carries, searching from row `i` on. */
  function StartingCommand(s: State, session: NodeId, i: nat): Option<NodeId>
    requires i <= |s.edges|
    decreases |s.edges| - i
  {
    if i == |s.edges| then None
    else if s.edges[i].kind.Provenance? && s.edges[i].to == session && RoleOf(s, s.edges[i].from) == Some(Command)
    then Some(s.edges[i].from)
    else StartingCommand(s, session, i + 1)
  }

  /** The command one provenance row names: its source, or the command that started its source session. */
  function CommandBehind(s: State, source: NodeId): Option<NodeId> {
    match RoleOf(s, source)
    case Some(Command) => Some(source)
    case Some(Session) => StartingCommand(s, source, 0)
    case _ => None
  }

  function ProducerFrom(s: State, content: NodeId, i: nat): Option<NodeId>
    requires i <= |s.edges|
    decreases |s.edges| - i
  {
    if i == |s.edges| then None
    else if s.edges[i].kind.Provenance? && s.edges[i].to == content && CommandBehind(s, s.edges[i].from).Some?
    then CommandBehind(s, s.edges[i].from)
    else ProducerFrom(s, content, i + 1)
  }

  /** The command that produced a content node; deleted rows are read like any other. */
  function ProducerOf(s: State, content: NodeId): Option<NodeId> {
    ProducerFrom(s, content, 0)
  }

  /** The (consumer, producer) pair row `i` stands for when it wires produced content into a command. */
  function WirePair(s: State, i: nat): Option<(NodeId, NodeId)>
    requires i < |s.edges|
  {
    var e := s.edges[i];
    if e.kind.Context? && RoleOf(s, e.to) == Some(Command) && ProducerOf(s, e.from).Some?
    then Some((e.to, ProducerOf(s, e.from).value))
    else None
  }

  /** Command topology: which command takes which command's output, over the live wires. */
  ghost function Feeds(s: State): Relation {
    set i | 0 <= i < |s.edges| && s.edges[i].deletedAt.None? && WirePair(s, i).Some? :: WirePair(s, i).value
  }

  ghost predicate IntroducesCycle(s: State, from: NodeId, to: NodeId) {
    ProducerOf(s, from).Some? && Reaches(Feeds(s), ProducerOf(s, from).value, to)
  }

  function MaxOrdinal(edges: seq<EdgeRow>, n: NodeId): (m: Option<int>)
    ensures m.None? ==> forall i | 0 <= i < |edges| :: !(edges[i].LiveContext() && edges[i].to == n)
    ensures m.Some? ==> forall i | 0 <= i < |edges| && edges[i].LiveContext() && edges[i].to == n ::
        edges[i].kind.ordinal <= m.value
  {
    if edges == [] then None
    else
      var k := |edges| - 1;
      var before := MaxOrdinal(edges[..k], n);
      if edges[k].LiveContext() && edges[k].to == n && (before.None? || before.value < edges[k].kind.ordinal)
      then Some(edges[k].kind.ordinal)
      else before
  }

  function NextOrdinal(edges: seq<EdgeRow>, n: NodeId): int {
    var m := MaxOrdinal(edges, n);
    (if m.Some? then m.value else 0) + 1
  }

  // ----- scope (packages/core/src/workstreams.ts, packages/core/src/commands.ts)

  /** An object crosses a workstream boundary only as a world object. */
  predicate MayCross(row: ObjectRow, target: Option<Id>) {
    row.workstream.None? || row.workstream == target || row.scope.World?
  }

  function CheckOutputCrossing(s: State, out: Id, target: Option<Id>): Option<Refusal>
    requires out in s.outputs && OutputChecks(s)
  {
    var row := s.outputs[out];
    if row.brokenAt.Some? then Some(BrokenOutput)
    else if target == Some(s.commands[row.command].workstream) then None
    else if row.boundObject.Some? then
      if s.objects[row.boundObject.value].scope.World? then None else Some(LocalBoundOutput)
    else if row.publishedAt.Some? then None
    else Some(UnpublishedOutput)
  }

  /** The two scope rules a context edge answers to: the object's own, then the placeholder's. */
  function CheckSource(s: State, refId: Id, target: Option<Id>): Option<Refusal>
    requires OutputChecks(s)
  {
    if refId in s.objects && !MayCross(s.objects[refId], target) then Some(LocalObject)
    else if refId in s.outputs then CheckOutputCrossing(s, refId, target)
    else None
  }

  // ----- nodes

  ghost function Place(s: State, role: NodeRole, refId: Id, workstream: Option<Id>, running: bool,
      id: NodeId): (r: Outcome<NodeId>)
    ensures Constraints(s) && r.Done? ==> Lawful(s, r.state)
    ensures r.Done? ==> r.value in r.state.nodes
  {
    match NodeFor(s, role, refId)
    case Some(n) => if s.nodes[n].deletedAt.Some? then Refused(NodeDeleted) else Done(s, n)
    case None =>
      if role.Content? && refId in s.objects && !MayCross(s.objects[refId], workstream) then Refused(LocalObject)
      else if id in s.nodes then Refused(ConstraintViolated)
      else Commit(s.(nodes := s.nodes[id := NodeRow(role, refId, workstream, running, None)]), id)
  }

  function SetRunning(s: State, n: NodeId, running: bool): State {
    if n in s.nodes then s.(nodes := s.nodes[n := s.nodes[n].(running := running)]) else s
  }

  // ----- edges

  datatype ContextInput = ContextInput(edgeId: Option<Id>, from: NodeId, to: NodeId, author: Author,
      ordinal: Option<int>)

  /** The refusals of a new wire that come before the cycle check, in the order the store checks them. */
  ghost function RefuseEarly(s: State, input: ContextInput): Option<Refusal>
    requires OutputChecks(s) && Rooted(s.lineage)
  {
    if input.from !in s.nodes || input.to !in s.nodes then Some(NotFound)
    else
      var from, to := s.nodes[input.from], s.nodes[input.to];
      if from.deletedAt.Some? || to.deletedAt.Some? then Some(NodeDeleted)
      else
        var legality := CheckConnection(GraphNode(input.from, from.role, from.running),
            GraphNode(input.to, to.role, to.running));
        if legality.Some? then Some(Illegal(legality.value))
        else if CheckSource(s, from.refId, to.workstream).Some? then CheckSource(s, from.refId, to.workstream)
        else if !MayAuthor(s.lineage, input.author, if to.role.Session? then Some(to.refId) else None)
            then Some(OwnChain)
        else if AlreadyWired(s.edges, input.from, input.to) then Some(Duplicate)
        else None
  }

  ghost function RefuseWire(s: State, input: ContextInput): Option<Refusal>
    requires OutputChecks(s) && Rooted(s.lineage)
  {
    var early := RefuseEarly(s, input);
    if early.Some? then early
    else if s.nodes[input.to].role.Command? && IntroducesCycle(s, input.from, input.to) then Some(WouldClose)
    else None
  }

  predicate AlreadyWired(edges: seq<EdgeRow>, from: NodeId, to: NodeId) {
    exists i | 0 <= i < |edges| :: edges[i].LiveContext() && edges[i].from == from && edges[i].to == to
  }

  function NewWire(s: State, input: ContextInput, freshId: Id): EdgeRow {
    EdgeRow(if input.edgeId.Some? then input.edgeId.value else freshId,
            Context(input.author, if input.ordinal.Some? then input.ordinal.value else NextOrdinal(s.edges, input.to)),
            input.from, input.to, None)
  }

  ghost function AddContextEdge(s: State, input: ContextInput, freshId: Id): (r: Outcome<EdgeRow>)
    requires OutputChecks(s) && Rooted(s.lineage)
    ensures Constraints(s) && r.Done? ==> Lawful(s, r.state)
  {
    var k := if input.edgeId.Some? then EdgeAt(s.edges, input.edgeId.value) else |s.edges|;
    if k < |s.edges| then
      var already := s.edges[k];
      if already.from != input.from || already.to != input.to then Refused(EdgeIdCollision)
      else if already.deletedAt.Some? then Refused(EdgeDeleted)
      else Done(s, already)
    else
      var refusal := RefuseWire(s, input);
      if refusal.Some? then Refused(refusal.value)
      else
        var row := NewWire(s, input, freshId);
        Commit(s.(edges := s.edges + [row]), row)
  }

  /** The row that already states this fact, or the table's length. */
  function ProvenanceAt(edges: seq<EdgeRow>, from: NodeId, to: NodeId, relation: ProvenanceKind): (k: nat)
    ensures k <= |edges|
    ensures k < |edges| ==> edges[k].kind == Provenance(relation) && edges[k].from == from && edges[k].to == to
    ensures forall i | 0 <= i < k ::
        !(edges[i].kind == Provenance(relation) && edges[i].from == from && edges[i].to == to)
  {
    if edges == [] then 0
    else if edges[0].kind == Provenance(relation) && edges[0].from == from && edges[0].to == to then 0
    else 1 + ProvenanceAt(edges[1..], from, to, relation)
  }

  function RecordProvenance(s: State, from: NodeId, to: NodeId, relation: ProvenanceKind,
      freshId: Id): (r: Outcome<EdgeRow>)
    ensures Constraints(s) && r.Done? ==> Lawful(s, r.state)
  {
    var k := ProvenanceAt(s.edges, from, to, relation);
    if k < |s.edges| then Done(s, s.edges[k])
    else if from !in s.nodes || to !in s.nodes then Refused(NotFound)
    else if s.nodes[from].deletedAt.Some? || s.nodes[to].deletedAt.Some? then Refused(NodeDeleted)
    else
      var row := EdgeRow(freshId, Provenance(relation), from, to, None);
      Commit(s.(edges := s.edges + [row]), row)
  }

  // ----- removal and restoration

  /** `UPDATE edges SET deleted_at = at WHERE id IN ids`. */
  function Stamp(edges: seq<EdgeRow>, ids: set<Id>, at: Option<Time>): (r: seq<EdgeRow>)
    ensures |r| == |edges|
    ensures forall i | 0 <= i < |r| :: r[i] == if edges[i].id in ids then edges[i].(deletedAt := at) else edges[i]
  {
    seq(|edges|, i requires 0 <= i < |edges| => if edges[i].id in ids then edges[i].(deletedAt := at) else edges[i])
  }

  /** The edges through `n` whose removal stamp is exactly `at`; `None` selects the live ones. */
  function Through(edges: seq<EdgeRow>, n: NodeId, at: Option<Time>): (ids: set<Id>)
    ensures forall x :: x in ids <==> exists i | 0 <= i < |edges| ::
        edges[i].id == x && edges[i].Touches(n) && edges[i].deletedAt == at
  {
    set i | 0 <= i < |edges| && edges[i].Touches(n) && edges[i].deletedAt == at :: edges[i].id
  }

  function RemoveEdge(s: State, id: Id, now: Time): Outcome<EdgeRow> {
    var k := EdgeAt(s.edges, id);
    if k == |s.edges| then Refused(NotFound)
    else if !s.edges[k].kind.Context? then Refused(ProvenanceNotAuthored)
    else Commit(s.(edges := Stamp(s.edges, {id}, Some(now))), s.edges[k].(deletedAt := Some(now)))
  }

  function RestoreEdge(s: State, id: Id): Outcome<EdgeRow> {
    var k := EdgeAt(s.edges, id);
    if k == |s.edges| then Refused(NotFound)
    else Commit(s.(edges := Stamp(s.edges, {id}, None)), s.edges[k].(deletedAt := None))
  }

  /** The edges a removal or restoration carried along, and whether it did anything. */
  datatype NodeRemoval = NodeRemoval(edges: set<Id>, changed: bool)

  function RemoveNode(s: State, n: NodeId, now: Time): Outcome<NodeRemoval> {
    if n !in s.nodes then Refused(NotFound)
    else if s.nodes[n].deletedAt.Some? then Done(s, NodeRemoval({}, false))
    else
      var touched := Through(s.edges, n, None);
      Commit(s.(edges := Stamp(s.edges, touched, Some(now)),
          nodes := s.nodes[n := s.nodes[n].(deletedAt := Some(now))]),
             NodeRemoval(touched, true))
  }

  function SubjectIsDeleted(s: State, row: NodeRow): bool {
    match row.role
    case Content => row.refId in s.objects && s.objects[row.refId].deletedAt.Some?
    case Command => row.refId in s.commands && s.commands[row.refId].deletedAt.Some?
    case Session => row.refId in s.sessions && s.sessions[row.refId].Some?
  }

  function RestoreNode(s: State, n: NodeId): Outcome<NodeRemoval> {
    if n !in s.nodes then Refused(NotFound)
    else if s.nodes[n].deletedAt.None? then Done(s, NodeRemoval({}, false))
    else if SubjectIsDeleted(s, s.nodes[n]) then Refused(SubjectDeleted)
    else
      var touched := Through(s.edges, n, s.nodes[n].deletedAt);
      Commit(s.(edges := Stamp(s.edges, touched, None), nodes := s.nodes[n := s.nodes[n].(deletedAt := None)]),
             NodeRemoval(touched, true))
  }

  // ----- assembly order

  /** The rows `contextInputs` returns, before they are ordered. */
  ghost predicate IsInput(edges: seq<EdgeRow>, n: NodeId, id: Id) {
    exists i | 0 <= i < |edges| :: edges[i].id == id && edges[i].LiveContext() && edges[i].to == n
  }

  /** `UPDATE edges SET ordinal = o WHERE id = x`. */
  function SetOrdinal(edges: seq<EdgeRow>, x: Id, o: int): (r: seq<EdgeRow>)
    ensures |r| == |edges|
    ensures forall i | 0 <= i < |r| ::
              r[i] == if edges[i].id == x && edges[i].kind.Context? then edges[i].(kind := edges[i].kind.(ordinal := o))
                  else edges[i]
  {
    seq(|edges|, i requires 0 <= i < |edges| =>
      if edges[i].id == x && edges[i].kind.Context? then edges[i].(kind := edges[i].kind.(ordinal := o)) else edges[i])
  }

  /** The table after the first `k` writes of one pass: the j-th id takes ordinal `sign * (j + 1)`. */
  function Pass(edges: seq<EdgeRow>, ids: seq<Id>, k: nat, sign: int): (r: seq<EdgeRow>)
    requires k <= |ids|
    ensures |r| == |edges|
  {
    if k == 0 then edges else SetOrdinal(Pass(edges, ids, k - 1, sign), ids[k - 1], sign * k)
  }

  /** Every single write of a pass meets the unique indexes. */
  ghost predicate PassHolds(edges: seq<EdgeRow>, ids: seq<Id>, sign: int) {
    forall k | 0 <= k <= |ids| :: LiveIndexes(Pass(edges, ids, k, sign))
  }

  ghost predicate ListsEveryInput(edges: seq<EdgeRow>, n: NodeId, ids: seq<Id>) {
    (forall x | IsInput(edges, n, x) :: x in ids) && |ids| == |InputIds(edges, n)|
  }

  /** The ids of the inputs of `n`; ids are unique, so this has as many members as there are inputs. */
  function InputIds(edges: seq<EdgeRow>, n: NodeId): set<Id> {
    set i | 0 <= i < |edges| && edges[i].LiveContext() && edges[i].to == n :: edges[i].id
  }

  ghost function ReorderContextInputs(s: State, n: NodeId, ids: seq<Id>): Outcome<()> {
    if !ListsEveryInput(s.edges, n, ids) then Refused(BadReorder)
    else
      var negated := Pass(s.edges, ids, |ids|, -1);
      if !PassHolds(s.edges, ids, -1) || !PassHolds(negated, ids, 1) then Refused(ConstraintViolated)
      else Done(s.(edges := Pass(negated, ids, |ids|, 1)), ())
  }

  // ----- records the board reads

  /** The board's half of an object write: a new id gets a row, an existing one keeps its scope. */
  function WriteObject(s: State, id: Id, workstream: Option<Id>): State {
    if id in s.objects then s
    else s.(objects := s.objects[id := ObjectRow(if workstream.Some? then Local else World, workstream, None)])
  }

  function Promote(s: State, id: Id): Outcome<()> {
    if id !in s.objects then Refused(NotFound)
    else if s.objects[id].scope.World? then Done(s, ())
    else Done(s.(objects := s.objects[id := s.objects[id].(scope := World, workstream := None)]), ())
  }

  /** Soft deletion and restoration of an object's record. */
  function SetObjectDeleted(s: State, id: Id, at: Option<Time>): Outcome<()> {
    if id !in s.objects then Refused(NotFound)
    else if at.Some? && s.objects[id].deletedAt.Some? then Done(s, ())
    else Done(s.(objects := s.objects[id := s.objects[id].(deletedAt := at)]), ())
  }

  /** A session's record as the board sees it: present, and perhaps soft-deleted. */
  function SetSession(s: State, id: SessionId, deletedAt: Option<Time>): State {
    s.(sessions := s.sessions[id := deletedAt])
  }

  function RecordSessionLineage(s: State, id: SessionId, parent: Option<SessionId>): Outcome<()> {
    match RecordLineage(s.lineage, id, parent)
    case Some(rows) => Done(s.(lineage := rows), ())
    case None => Refused(ConstraintViolated)
  }

  // ----- command outputs

  function Publish(s: State, out: Id, now: Time): Outcome<()> {
    if out !in s.outputs then Refused(NotFound)
    else if s.outputs[out].boundObject.Some? then Refused(AlreadyBound)
    else Done(s.(outputs := s.outputs[out := s.outputs[out].(publishedAt := Some(now))]), ())
  }

  /** Binding a published output promotes the object it binds to. */
  function BindOutput(s: State, out: Id, obj: Id): Outcome<()> {
    if out !in s.outputs then Refused(NotFound)
    else
      var bound := s.(outputs := s.outputs[out := s.outputs[out].(boundObject := Some(obj))]);
      if !Constraints(bound) then Refused(ConstraintViolated)
      else if s.outputs[out].publishedAt.Some? then Promote(bound, obj)
      else Done(bound, ())
  }

  /** What deleting the producer does to one output: a placeholder breaks, a bound object is left alone. */
  function AfterProducerDeleted(row: OutputRow, at: Time): OutputRow {
    if row.boundObject.Some? then row else row.(brokenAt := Some(at))
  }

  function MapOutputs(s: State, command: Id, f: OutputRow -> OutputRow): (r: map<Id, OutputRow>)
    ensures r.Keys == s.outputs.Keys
    ensures forall o | o in r :: r[o] == if s.outputs[o].command == command then f(s.outputs[o]) else s.outputs[o]
  {
    map o | o in s.outputs :: if s.outputs[o].command == command then f(s.outputs[o]) else s.outputs[o]
  }

  function DeleteCommand(s: State, command: Id, now: Time): Outcome<()> {
    if command !in s.commands then Refused(NotFound)
    else Done(s.(outputs := MapOutputs(s, command, row => AfterProducerDeleted(row, now)),
                 commands := s.commands[command := s.commands[command].(deletedAt := Some(now))]), ())
  }

  function RestoreCommand(s: State, command: Id): Outcome<()> {
    if command !in s.commands then Refused(NotFound)
    else Done(s.(outputs := MapOutputs(s, command, (row: OutputRow) => row.(brokenAt := None)),
                 commands := s.commands[command := s.commands[command].(deletedAt := None)]), ())
  }

  // ----- instantiation

  datatype Declared = Declared(output: Id, node: NodeId, edge: Id)

  datatype Instantiation = Instantiation(
    command: Id,
    node: NodeId,
    workstream: Id,
    author: Author,
    outcome: Option<Declared>,
    context: seq<(NodeId, Id)>)

  function InsertCommand(s: State, command: Id, workstream: Id): (r: Outcome<()>)
    ensures Constraints(s) && r.Done? ==> Lawful(s, r.state)
  {
    if command in s.commands then Refused(ConstraintViolated)
    else Done(s.(commands := s.commands[command := CommandRow(workstream, None)]), ())
  }

  function InsertOutput(s: State, out: Id, command: Id): (r: Outcome<()>)
    ensures Constraints(s) && r.Done? ==> Lawful(s, r.state)
  {
    if out in s.outputs || command !in s.commands then Refused(ConstraintViolated)
    else Done(s.(outputs := s.outputs[out := OutputRow(command, None, None, None)]), ())
  }

  /** A typed placeholder: its row, its content node, and the provenance that names the command behind it. */
  ghost function DeclareOutput(s: State, command: Id, commandNode: NodeId, d: Declared): (r: Outcome<()>)
    ensures Constraints(s) && r.Done? ==> Lawful(s, r.state)
  {
    match InsertOutput(s, d.output, command)
    case Refused(e) => Refused(e)
    case Done(s1, _) =>
      match Place(s1, Content, d.output, Some(s1.commands[command].workstream), false, d.node)
      case Refused(e) => Refused(e)
      case Done(s2, node) =>
        match RecordProvenance(s2, commandNode, node, CommandDeclaresOutput, d.edge)
        case Refused(e) => Refused(e)
        case Done(s3, _) => Done(s3, ())
  }

  /** The context wires of a new command, one after the other; the first refusal stops them. */
  ghost function WireAll(s: State, to: NodeId, author: Author, context: seq<(NodeId, Id)>, k: nat): (r: Outcome<()>)
    requires Constraints(s) && Rooted(s.lineage) && k <= |context|
    ensures r.Done? ==> Lawful(s, r.state)
  {
    if k == 0 then Done(s, ())
    else
      match WireAll(s, to, author, context, k - 1)
      case Refused(e) => Refused(e)
      case Done(s1, _) =>
        match AddContextEdge(s1, ContextInput(None, context[k - 1].0, to, author, None), context[k - 1].1)
        case Refused(e) => Refused(e)
        case Done(s2, _) => Done(s2, ())
  }

  /** One transaction: any refusal inside it refuses the whole gesture. */
  ghost function Instantiate(s: State, g: Instantiation): (r: Outcome<NodeId>)
    ensures r.Done? ==> Lawful(s, r.state)
    requires Constraints(s) && Rooted(s.lineage)
  {
    match InsertCommand(s, g.command, g.workstream)
    case Refused(e) => Refused(e)
    case Done(s1, _) =>
      match Place(s1, Command, g.command, Some(g.workstream), false, g.node)
      case Refused(e) => Refused(e)
      case Done(s2, node) =>
        var declared := if g.outcome.Some? then DeclareOutput(s2, g.command, node, g.outcome.value) else Done(s2, ());
        match declared
        case Refused(e) => Refused(e)
        case Done(s3, _) =>
          match WireAll(s3, node, g.author, g.context, |g.context|)
          case Refused(e) => Refused(e)
          case Done(s4, _) => Done(s4, node)
  }
}
