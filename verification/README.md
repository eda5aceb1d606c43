# PlotRoom: the board, the content store, the run queue, the session host and the release scripts

A Dafny model of the parts of PlotRoom that keep a promise over time, with
proofs of those promises. Four components carry state:

- **The board** (`Edges`, `Lineage`, `Board*`, `Gestures`, `GraphStore`, `CommandStore`):
  nodes, context edges, provenance edges, session lineage, commands and their output
  placeholders. `Board` states each gesture as a function on the tables;
  `GraphStore` and `CommandStore` are the classes that carry the gestures out on
  mutable tables, each method proved to do exactly what its function says.
- **The content store** (`Blobs`, `BlobStore`, `Versions`, `VersionRuns`, `Crashes`, `LibraryLaws`,
  `ObjectStore`): deduplicated blobs in rows and files, object versions holding references to
  them, and both compaction sweeps. Multi-step operations are lists of single
  effects, so a crash is a cut of the list.
- **The run queue** (`RunQueue`, `QueueRuns`, `QueueStops`, `QueueOrder`, `Scopes`, `Admission`,
  `BatchStanding`, `Stranding`, `Foresight`, `Arrivals`, `QueueLaws`, `QueueStore`,
  `QueueService`):
  batches and entries, the order a scope is enqueued in, the store's unguarded verbs, the
  service's guarded steps, and the drain that admits what is waiting by how it stands with
  the rest of its batch, pass after pass, while other callers come and go.
- **The session host** (`Observations`, `SessionHost`, `Timeline`, `TimelineTotals`,
  `TimelineLaws`, `SessionTimeline`): the event translator, the request bridge, and the fold of
  the observation log into turns and tool calls.

Three smaller cores are pure: cost estimates and outcome counts (`Estimates`,
`Outcomes`), version derivation and version text (`Release`, `VersionText`), and
release notes (`Notes`, `RangeOrder`). `Reachability`, `Sorting` and `Wrappers` are shared.

Each operation also has its law, which says in the columns of the tables what it writes,
what it leaves and what it refuses, without the functions it is defined by: `BoardLaws`
and `BoardProducers` for the board, `LibraryLaws` for the content store, `QueueLaws` for
the queue, `TimelineLaws` for the host.

In every component the main results are about all runs: a state predicate, a step
function over all gestures, and a proof that each step keeps the predicate. Where a
gesture does not, the exact condition under which it does is proved as an
if-and-only-if, and a concrete run shows that the condition can fail.

The board's promises come in three layers, each with its own runs. Well-formed tables
(`Gestures.Wellformed`) survive any gesture but a session that names itself as parent.
The facts (`BoardFacts.FactsHold`: legal shapes, scope, the own-chain rule, removed edges
included) survive both restores and late provenance unconditionally; only four gestures
have a condition (`BoardFacts.NextKeepsFactsIff`). A topology that stands
(`BoardRuns.Standing`: no cycle, no live edge to a removed node) is what restores and late
provenance can break. For the other components the predicates are `Versions.LibraryValid`,
`Crashes.Intact` where steps may be cut, and `QueueRuns.Sound`.

## What the code does that its documentation does not say

- `restoreEdge` and `restoreNode` repeat no legality check. A restore can leave a
  live edge to a removed node (`BoardUndo.RestoreCanDangle`), can make two commands
  feed each other (`BoardUndo.RestoreCanCloseCycle`), and can be refused by the
  unique ordinal index when another edge took its place
  (`BoardUndo.RestoreCanBeRefused`). The exact conditions are
  `BoardTopology.RestoreEdgeAcyclicIff`, `BoardTopology.RestoreNodeAcyclicIff`,
  `BoardScope.RestoreEdgeLiveEndsIff`, `BoardScope.RestoreNodeLiveEndsIff` and
  `BoardUndo.RestoreNodeLandsIff`.
- The comment on `liveEdges` (packages/db/src/graph-store.ts:701-705) says provenance is
  never soft-deleted. `removeNode` stamps the provenance rows through a node too
  (`BoardUndo.ProvenanceGoesDown`), exactly the live ones (`BoardUndo.RemoveNodeLands`),
  and `restoreEdge` revives a row of any kind.
- `abortBatch` is documented to leave a batch that can never be resumed
  (packages/db/src/run-queue-store.ts:174-178). An entry still in flight when its
  batch is aborted pauses that batch if it then fails, and a paused batch resumes
  (`QueueStops.StoppedBatchRunsAgain`, reached from an empty queue by
  `QueueStops.BothRunningIsReached`). An aborted batch can come to run again exactly
  when one of its entries is starting or running (`QueueStops.RunsAgainIff`). What had
  not started stays cancelled (`QueueStops.StoppedMeansStopped`).
- `sessionTimeline` is documented to attach a call to the turn open when it started
  (packages/core/src/session-timeline.ts:59-63). The code attaches it to the last
  turn started, ended or not (`TimelineTotals.CallLandsInEndedTurn`); the two agree exactly
  while the last turn is open or there is none (`TimelineTotals.AttachesToLastTurn`).
- `release` removes the file before it updates the row, so a crash between the two
  leaves a row that claims bytes that are gone, exactly when the blob is external
  and not yet released (`Blobs.ReleaseCutLosesContent`).
- A crash after a version's row and before the object names it as its latest
  (packages/db/src/object-store.ts:443-449) leaves a version that reads as the latest. Once
  it is older than the window the version sweep takes it, and writing the same content
  again reports that version and does not name it (`Crashes.UnnamedIsSweptIff`). The next
  version then gets its number (`Crashes.NumberIsReusedIff`).
- `headinglessTypes` and `unclassifiedTypes` are documented to report every type without a
  row (scripts/release/notes.ts:35, scripts/release/version.ts:132-136). Both look the type
  up in an object literal, which answers to inherited names as well, so they pass a type
  named `constructor` (`Release.PassesWithoutRowIff`, `Release.LowerCaseInherited`) although
  the notes then drop its commit (`Notes.ConstructorIsDropped`). With nothing reported, the
  notes list every commit exactly when no type is an inherited name
  (`Notes.CheckedNotesIff`).
- `renderNotes` is documented to list every commit once and to depend on the range
  alone (scripts/release/notes.ts:1-10, 60-72). The first holds exactly when every type
  has a heading of its own (`Notes.EveryCommitOnceIff`). The second fails for two commits
  that tie (`RangeOrder.TwoOrdersTwoTexts`), since ties keep their order in the range: the
  sections depend on the range alone exactly when no two commits of a rendered type share
  scope and description (`RangeOrder.OrderShowsInSectionsIff`), and the text exactly when
  no two such commits differ in their line (`RangeOrder.OrderShowsInTextIff`).
- `read` leaves out a delta whose summary is the empty text, because it tests the summary
  for truth (packages/db/src/object-store.ts:204-210), while `chooseDelta` and `appendVersion`
  look at the body alone. Such a delta is stored, referenced and never shown
  (`Versions.EmptySummaryHidesDelta`): a delta that was kept reads back exactly when its
  summary is not empty (`Versions.KeptDeltaReadsIff`).
- A batch rewired while it waits can hold an entry that a drain with a free slot leaves
  waiting for nothing (`Stranding.OutOfOrderStrands`). In the order the scope was enqueued
  in, none can (`Stranding.NobodyStranded`). A pass strands a batch exactly when nothing of
  it was alive and each of its turns was told to wait or came to nothing
  (`Stranding.StrandedIff`); on wiring that stands still, that can be read off the rows
  before the pass begins (`Foresight.StrandedIffDoomed`).

## Conventions of the model

Ids, texts and hashes that are only compared are natural numbers or symbolic
values; SHA-256 is an injective constructor. Generated ids are parameters
required to be new. The clock is a parameter of each call. Money and time are
unbounded integers, promises are separate steps, and a transaction is one step
that either happens or does not. Text content is a sequence of bytes.
The board and the content store each keep the columns of the `objects` table they
read: scope and workstream on the board, identity and versions in the content store.

## Model

| member | source | states |
|---|---|---|
| Edges.CheckConnection | packages/core/src/edges.ts:122-147 | A connection is legal exactly when it runs from a content node to another node that is a command, or a session that is running. |
| Edges.WouldCycle | packages/core/src/edges.ts:158-177 | The stack search ends on every finite input map, cyclic ones included, and answers true exactly when the producer reaches the consumer along zero or more input links. |
| Lineage.AncestorsOf | packages/core/src/lineage.ts:21-36 | The loop ends on any table and returns a walk upwards; where every parent was recorded before its child, it returns the whole chain, so the guard against repeats never fires. |
| Lineage.IsInSameChain | packages/core/src/lineage.ts:38-45 | On such a table the answer is comparability in the ancestor order. |
| Lineage.CheckAuthoring | packages/core/src/lineage.ts:69-89 | Authoring is allowed exactly for a human, for a target that is no session, or across chains. |
| Lineage.ChainEndsAtHuman | packages/core/src/lineage.ts:4-36 | Every chain ends at a session with no parent: a human gesture. |
| Lineage.BelowIsTransitive | packages/core/src/lineage.ts:20-45 | Being below composes. |
| Lineage.BelowIsAntisymmetric | packages/core/src/lineage.ts:20-45 | Two sessions each below the other are the same session. |
| Lineage.AboveIsLinear | packages/core/src/lineage.ts:20-45 | Any two sessions above a third are comparable, so the order is a forest. |
| Lineage.RecordKeepsRooted | packages/db/src/graph-store.ts:764-770 | An accepted insert keeps parents before children if and only if the session was already recorded or does not name itself as parent. |
| Lineage.LeafKeepsAncestors | packages/db/src/graph-store.ts:764-785 | Adding a session changes the chain of no other session. |
| Lineage.RecordKeepsSameChain | packages/db/src/graph-store.ts:764-785 | Whether two recorded sessions share a chain is settled for good. |
| BoardTopology.RefusedAsCycleIff | packages/db/src/graph-store.ts:378-390 | Once every other check has passed, addContextEdge refuses `would_cycle` if and only if the new wire would make the command topology cyclic. |
| BoardTopology.WireClosesCycleIffRefused | packages/db/src/graph-store.ts:822-852 | Adding a live wire into a command keeps the live producer-to-consumer relation acyclic if and only if introducesCycle says no. |
| BoardTopology.AddContextEdgeKeepsAcyclic | packages/db/src/graph-store.ts:284-411 | Every accepted context edge leaves the topology acyclic. |
| BoardTopology.FewerWiresKeepAcyclic | packages/db/src/graph-store.ts:533-615 | Any change that revives no row keeps the topology acyclic. |
| BoardTopology.RecordedProvenanceAcyclicIff | packages/db/src/graph-store.ts:435-481 | Late provenance keeps the topology acyclic if and only if no command that would come to consume from the producing command already leads to it. |
| BoardTopology.ProvenanceOfUnwiredContent | packages/db/src/graph-store.ts:435-481 | Provenance into content that nothing is wired from changes no feed at all. |
| BoardTopology.RestoreEdgeAcyclicIff | packages/db/src/graph-store.ts:553-563 | Restoring an edge keeps the topology acyclic if and only if it was live, carries no feed, or its consumer does not already reach its producer. |
| BoardTopology.RestoreNodeAcyclicIff | packages/db/src/graph-store.ts:633-686 | Restoring a node keeps the topology acyclic if and only if none of the feeds it brings back closes a walk of the old topology. |
| BoardScope.CheckSourceIff | packages/core/src/commands.ts:443-490 | The scope and crossing checks together accept exactly a source that may reach the target's workstream and, if it is an output, is not broken. |
| BoardScope.BindOutputScopeIff | packages/db/src/command-store.ts:486-505 | Binding an output keeps every edge's scope rule if and only if the output is published, the object is a world object, or no edge carries the output abroad; a first binding meets the first or last of these by itself. |
| BoardScope.WriteObjectScopeIff | packages/db/src/object-store.ts:96-146 | An object written after nodes already name it keeps the scope rule if and only if it is a world object or those nodes and edges stayed in its workstream. |
| BoardScope.RecordLineageChainIff | packages/db/src/graph-store.ts:764-770 | Recording a session keeps the own-chain rule of all edges if and only if it has no parent or no edge already joins it with a session above that parent. |
| BoardScope.RestoreEdgeLiveEndsIff | packages/db/src/graph-store.ts:553-563 | Restoring an edge keeps every live edge between live nodes if and only if both its ends are live. |
| BoardScope.RestoreNodeLiveEndsIff | packages/db/src/graph-store.ts:633-686 | The same for a node: if and only if every neighbour it is joined to by a revived edge is live. |
| BoardOrder.AcceptsExactlyPermutations | packages/db/src/graph-store.ts:500-506 | The membership and length tests of reorderContextInputs accept exactly the permutations of the current inputs. |
| BoardOrder.NegativePassIff | packages/db/src/graph-store.ts:509-515 | Every single write of the first pass meets the unique ordinal index if and only if no listed input still holds an ordinal the pass is about to give out. |
| BoardOrder.PositivePassHolds | packages/db/src/graph-store.ts:509-521 | After the first pass no write of the second one ever collides. |
| BoardOrder.PositiveOrdinalsNeverBlock | packages/db/src/graph-store.ts:500-523 | Where ordinals start positive, nothing blocks. |
| BoardOrder.ReorderOutcome | packages/db/src/graph-store.ts:500-523 | A reorder is refused as malformed exactly for a list that is no permutation, and lands exactly when it is one and no write is blocked. |
| BoardOrder.ReorderedInputs | packages/db/src/graph-store.ts:484-523 | After a reorder contextInputs returns exactly the given order, numbered from one. |
| Gestures.NextStaysWellformedIff | packages/db/src/graph-store.ts:120-770 | Any gesture, in any well-formed state, keeps the schema's constraints and parents before children, if and only if it is not a new session naming itself as parent. |
| BoardFacts.RestoreEdgeKeepsFacts | packages/db/src/graph-store.ts:553-563 | Restoring an edge, unguarded as it is, never takes a wire out of scope, shape or its author's rights. |
| BoardFacts.RestoreNodeKeepsFacts | packages/db/src/graph-store.ts:633-686 | Nor does restoring a node. |
| BoardFacts.RecordProvenanceKeepsFacts | packages/db/src/graph-store.ts:435-481 | Nor does provenance recorded late. |
| BoardFacts.InstantiateFactsIff | packages/db/src/command-store.ts:273-307 | An instantiation that goes through keeps the facts if and only if it declares no placeholder, or every edge already drawn from a node of the placeholder's name stays in the command's workstream. |
| BoardFacts.NextKeepsFactsIff | packages/db/src/graph-store.ts:120-770 | Every gesture keeps the facts if and only if it meets its condition, and only writing an object, binding an output, recording a session and instantiating have one. |
| BoardFacts.FactsLast | packages/db/src/graph-store.ts:120-770 | Scope, authorship and legal shape of every edge, removed ones included, hold at every point of every run in which those four gestures meet their conditions, with any restores and any late provenance in between. |
| BoardFacts.FactsLastFromEmpty | packages/db/src/graph-store.ts:120-770 | The same for every such run from the empty board. |
| BoardRuns.NextIsSoundIff | packages/db/src/graph-store.ts:120-770 | From a sound board any gesture, instantiation included, leads to a sound board if and only if its caller met the condition stated for it: sound means the facts (schema constraints, rooted lineage, legal shapes, scope rule, own-chain rule, soft-deleted edges included), acyclic feeds and live ends. |
| BoardRuns.SoundRunsStaySound | packages/db/src/graph-store.ts:120-770 | A sound board stays sound at every point of every run of permitted gestures. |
| BoardRuns.EveryRunIsSound | packages/db/src/graph-store.ts:120-770 | Every run from the empty board is sound at every point. |
| BoardRuns.InstantiateStandsIff | packages/db/src/command-store.ts:273-307 | An instantiation that keeps the facts keeps the topology standing if and only if it has no placeholder, or one of the two nodes of its provenance is new, or that provenance meets the condition for late provenance; its context wires never matter. |
| BoardRuns.InstantiateKeepsSound | packages/db/src/command-store.ts:273-307 | Instantiating a command under new names, with its placeholder and all its context wires or rolled back whole, keeps the board sound. |
| BoardRuns.WireLandsIff | packages/db/src/graph-store.ts:284-411 | On a board with well-formed tables and an acyclic topology a new wire is accepted if and only if both ends exist and live, the shape is legal, the source may reach the target's workstream and is not broken, the author may author there, the pair is not wired yet, and the topology with it is acyclic. |
| BoardProducers.ProducerIff | packages/db/src/graph-store.ts:856-891 | Content has a producing command if and only if some provenance row into it comes from a command, or from a session into which some provenance row comes from a command; the producer is the command that the first such row names. |
| BoardProducers.StartedIff | packages/db/src/graph-store.ts:868-886 | The command behind a session is the source of the first provenance row into the session that comes from a command, and there is none if and only if no row does. |
| BoardProducers.FeedsIff | packages/db/src/graph-store.ts:822-852 | One command feeds another if and only if a live context row runs into the second from content first credited to the first. |
| BoardProducers.WireBackIsRefused | packages/db/src/graph-store.ts:378-390 | A wire from content into the command it is credited to is refused `would_cycle`, once no other check refuses it. |
| BoardProducers.WireAroundIsRefused | packages/db/src/graph-store.ts:378-390 | So is a wire into a command that already feeds the command its content is credited to. |
| BoardProducers.SessionsObjectIsTheCommands | packages/db/src/graph-store.ts:856-891 | Content whose first provenance row comes from a session is credited to the command that first started the session: a live wire from that content into any command makes the first feed it, and a wire back into the first is refused. |
| BoardLaws.ReasonIff | packages/db/src/graph-store.ts:284-390 | A new wire is refused for the first thing wrong with it, and each reason is given for exactly that: an end missing or removed, an illegal shape, a foreign local object, a broken, locally bound or unpublished placeholder, the own chain, a duplicate. |
| BoardLaws.SourceReason | packages/core/src/commands.ts:443-490 | The scope checks name a local object of another workstream first, then a broken placeholder, then one taken abroad while bound to a local object or while neither bound nor published. |
| BoardLaws.WireLands | packages/db/src/graph-store.ts:392-411 | An accepted wire adds one live row with the given ends and author, and with the given ordinal or one more than the highest live input, and changes nothing else. |
| BoardLaws.RetriedWire | packages/db/src/graph-store.ts:288-312 | An edge id already on the board answers with its own row if the ends match and it is live, and is refused otherwise. |
| BoardLaws.PlaceLaw | packages/db/src/graph-store.ts:126-178 | A subject that has a node gets it back, or is refused if that node is removed; any other gets one new live node with the given fields. |
| BoardLaws.PlacedAtHome | packages/db/src/graph-store.ts:126-178 | A local object is placed in its own workstream and refused in any other. |
| BoardLaws.RunningOpens | packages/db/src/graph-store.ts:216-223 | The node runs as it was told and nothing else changes, and a wire from live content into that session is refused for not running exactly if it was told to stop. |
| BoardLaws.EdgeStamps | packages/db/src/graph-store.ts:533-563 | Removing stamps exactly the named context edge and answers with it, and refuses provenance; restoring clears exactly the named edge, of either kind. |
| BoardLaws.EdgeComesBackIff | packages/db/src/graph-store.ts:533-563 | An authored wire can always be removed; an edge can be restored if and only if it is provenance or no live wire into the same node has its source or its ordinal by now. |
| BoardLaws.ProvenanceLaw | packages/db/src/graph-store.ts:435-481 | A fact already stated answers with its row; a new one is one live row more, between live nodes only. |
| BoardLaws.NothingToDo | packages/db/src/graph-store.ts:571-686 | Removing a removed node and restoring a live one change nothing and report no edges. |
| BoardLaws.LineageLaw | packages/db/src/graph-store.ts:764-770 | A recorded session stays as it was; a new one is recorded if its parent is on record, itself, or nobody, and refused otherwise. |
| BoardLaws.PromotionOpens | packages/db/src/object-store.ts:250-260 | After promotion the object belongs to no workstream and its wires are never refused as a local object. |
| BoardLaws.WriteObjectLaw | packages/db/src/object-store.ts:96-146 | The first write decides the scope: local to the workstream it names, or world; later writes change nothing here. |
| BoardLaws.ObjectStamp | packages/db/src/object-store.ts:269-295 | A deletion keeps the first stamp, a restore clears it, and nothing else is written. |
| BoardLaws.PublishingOpens | packages/core/src/commands.ts:443-490 | An unbound, unbroken placeholder is refused abroad until it is published and accepted anywhere after that. |
| BoardLaws.PublishRefused | packages/db/src/command-store.ts:466-478 | Publishing is refused exactly for a missing output and for a bound one. |
| BoardLaws.BindLaw | packages/db/src/command-store.ts:486-505 | A binding lands if and only if the output exists and is not broken and the object exists; it names the object, lifts it to the world if the output is published, and leaves it alone otherwise. |
| BoardLaws.DeletingBreaks | packages/db/src/command-store.ts:514-545 | Deleting a command stamps exactly its unbound placeholders as broken, and a wire from one of them is then refused as broken. |
| BoardLaws.RestoringMends | packages/db/src/command-store.ts:548-569 | Restoring a command leaves none of its outputs broken, and no other row changed. |
| BoardLaws.CommandUndoIff | packages/db/src/command-store.ts:514-569 | Deleting and restoring a command gives back the very same tables if and only if it was not deleted and none of its outputs was broken before. |
| BoardLaws.InstantiateLaw | packages/db/src/command-store.ts:273-307 | An instantiation that goes through has written the live command in its workstream, its node, an unbound and unpublished placeholder with its node and the provenance from the command, and last one live wire by the author for each context item, in the given order and each placed behind the inputs before it. |
| BoardUndo.RemoveNodeLands | packages/db/src/graph-store.ts:571-615 | Removing a live node always succeeds, stamps exactly the live edges through it, and returns exactly those. |
| BoardUndo.UndoIsIdentityIff | packages/db/src/graph-store.ts:571-686 | Restore straight after remove gives back the very same tables and the same removal record if and only if the row the node names, in the table of its role, carries no deletion stamp and no edge through the node already carried the removal's. |
| BoardUndo.UndoAcrossRun | packages/db/src/graph-store.ts:571-686 | After any gestures in between, on any well-formed board, that neither restore nor re-stamp the node's edges and record no session as its own parent, a restore that lands brings back exactly the edges the removal returned, each as it was, and none removed separately; the node's row is as it was but for whether it runs, and every other node, edge and table is untouched. |
| BoardUndo.RestoreNodeLandsIff | packages/db/src/graph-store.ts:633-686 | A restore lands if and only if the object, command or session row the node names, by its role, is absent or carries no deletion stamp, and no two rows the restore leaves live collide on a unique index. |
| BoardUndo.RestoreRefusedIff | packages/db/src/graph-store.ts:633-645 | Restoring a removed node is refused `subject_deleted` if and only if that row exists and is stamped, role by role in the columns of its table. |
| BoardLaws.RecordKeepsCardDown | packages/db/src/graph-store.ts:633-645 | After an object was soft-deleted, restoring its removed node is refused for that; after the object is restored, never for that. |
| BoardLaws.CommandKeepsCardDown | packages/db/src/graph-store.ts:633-645 | The same for a command and its node. |
| BoardLaws.SessionKeepsCardDown | packages/db/src/graph-store.ts:633-645 | The same for a session and its node. |
| BoardUndo.RestoreCanDangle | packages/db/src/graph-store.ts:633-686 | A run of two removals on a sound board after which a restore leaves a live edge to a removed node. |
| BoardUndo.RestoreCanCloseCycle | packages/db/src/graph-store.ts:553-563 | A run from a sound board after which restoring an edge makes two commands feed each other. |
| BoardUndo.RestoreCanBeRefused | packages/db/src/graph-store.ts:633-686 | A run from a sound board after which undoing a removal is refused by the ordinal index. |
| BoardUndo.RestoredProvenance | packages/db/src/graph-store.ts:553-563 | Restoring a provenance row always succeeds, and clears that row's stamp and nothing else. |
| BoardUndo.ProvenanceGoesDown | packages/db/src/graph-store.ts:571-615 | On a sound board a removal stamps a live provenance row, and restoring that row gives back the very row there was. |
| GraphStore.Database.Write | packages/db/src/migrations.ts:154-194 | A transaction takes the new rows exactly when they meet the schema's constraints, and otherwise changes nothing. |
| GraphStore.GraphStore.Place | packages/db/src/graph-store.ts:126-178 | Placing carries out the specified gesture: an existing node is returned, a removed one refused, a local object never placed abroad. |
| GraphStore.GraphStore.SetRunning | packages/db/src/graph-store.ts:216-223 | Only whether that node runs changes. |
| GraphStore.GraphStore.ProducingCommandOf | packages/db/src/graph-store.ts:856-891 | The scan returns the command that the first crediting provenance row names, its source or the command that first started its source session, removed rows included, and none exactly if no row credits one. |
| GraphStore.GraphStore.IntroducesCycle | packages/db/src/graph-store.ts:822-852 | The map built over live wires and the search on it answer whether the producer behind the source reaches the target in the live topology. |
| GraphStore.GraphStore.AddContextEdge | packages/db/src/graph-store.ts:284-411 | Leaves exactly the specified tables and answer; BoardLaws.ReasonIff, WireLands and RetriedWire, BoardTopology.RefusedAsCycleIff and BoardProducers.FeedsIff say in the rows what those are. |
| GraphStore.GraphStore.RecordProvenance | packages/db/src/graph-store.ts:435-481 | Leaves exactly the specified tables and answer; a fact already stated is returned. |
| GraphStore.GraphStore.ReorderContextInputs | packages/db/src/graph-store.ts:500-523 | The two loops of single checked writes leave exactly the specified table, or roll back to the old one. |
| GraphStore.GraphStore.Renumber | packages/db/src/graph-store.ts:509-521 | One pass does its writes in order and stops at the first the index refuses. |
| GraphStore.GraphStore.RemoveEdge | packages/db/src/graph-store.ts:533-551 | Stamps one context edge as specified; a provenance edge or a missing one is refused and nothing changes. |
| GraphStore.GraphStore.RestoreEdge | packages/db/src/graph-store.ts:553-563 | Clears one edge's stamp as specified, whatever its kind. |
| GraphStore.GraphStore.RemoveNode | packages/db/src/graph-store.ts:571-615 | Stamps the node and its live edges as specified and returns what it stamped. |
| GraphStore.GraphStore.RestoreNode | packages/db/src/graph-store.ts:633-686 | Revives the node and exactly the edges with its stamp as specified, or is refused; BoardUndo.RestoreRefusedIff and RestoreNodeLandsIff say when, in the rows. |
| GraphStore.GraphStore.RecordLineage | packages/db/src/graph-store.ts:764-770 | An existing row wins, an unknown parent is a violated reference, otherwise one row is added. |
| CommandStore.CommandStore.DeclareOutput | packages/db/src/command-store.ts:635-685 | Writes the placeholder, its node and its provenance exactly as specified. |
| CommandStore.CommandStore.Instantiate | packages/db/src/command-store.ts:273-307 | Leaves exactly the specified tables: everything, or on any refusal nothing. |
| CommandStore.CommandStore.WireContext | packages/db/src/command-store.ts:301-303 | Wires the inputs in the given order and stops at the first refusal, as specified. |
| CommandStore.CommandStore.Publish | packages/db/src/command-store.ts:466-478 | Publishes as specified; an output that may not be published is refused and nothing changes. |
| CommandStore.CommandStore.Promote | packages/db/src/object-store.ts:250-260 | Lifts an object to world scope as specified and never back. |
| CommandStore.CommandStore.BindOutput | packages/db/src/command-store.ts:486-505 | Binds or rebinds the output to the object as specified. |
| CommandStore.CommandStore.Delete | packages/db/src/command-store.ts:514-545 | Marks the command deleted, breaks exactly its unbound placeholders, and reports the effect on each output. |
| CommandStore.CommandStore.BreakOutputs | packages/core/src/commands.ts:375-386 | Output by output: a bound one lives on, an unbound one is broken, another command's is untouched. |
| CommandStore.CommandStore.Restore | packages/db/src/command-store.ts:548-569 | Brings the command back and mends exactly what its deletion broke. |
| Blobs.GetReadsBack | packages/db/src/blob-store.ts:101-116 | A valid store answers a released row with a refusal and any other with exactly the bytes its hash was taken of. |
| Blobs.PutReadsBack | packages/db/src/blob-store.ts:54-99 | In any valid state a put returns an unreleased row that reads back what was put, and changes no other row. |
| Blobs.PutTwiceIsOnce | packages/db/src/blob-store.ts:54-99 | Putting the same bytes again returns the same id and does nothing. |
| Blobs.PutCrashSafe | packages/db/src/blob-store.ts:54-99 | Cut after any of its effects, the file write and row restore included, a put leaves no unreleased row without its bytes. |
| Blobs.ReleaseThenPut | packages/db/src/blob-store.ts:157-174 | After a release `get` refuses, and putting the same bytes brings back the same id and content. |
| Blobs.ReleaseKeepsValid | packages/db/src/blob-store.ts:157-174 | A completed release keeps the store valid, every row's hash, and every other row. |
| Blobs.ReleaseCutLosesContent | packages/db/src/blob-store.ts:157-174 | Some cut of a release leaves a row without its bytes if and only if the blob is external and not yet released. |
| Blobs.CompactCrashSafe | packages/db/src/blob-store.ts:211-243 | Cut anywhere, the sweep leaves a valid store and no reference lost. |
| Blobs.CompactKeepsReferenced | packages/db/src/blob-store.ts:211-243 | A finished sweep keeps exactly the referenced rows, reads each back as before, removes the files of all others, and leaves nothing for a second sweep. |
| Blobs.FilesFirstLosesContent | packages/db/src/blob-store.ts:205-243 | In the opposite order, a cut makes a later put dedup onto a row whose bytes are gone. |
| LibraryLaws.NewContentLaw | packages/db/src/blob-store.ts:54-99 | New content goes to a file if and only if it is longer than 64 KiB; its row is then marked external and holds no bytes, and otherwise holds all of them. |
| LibraryLaws.ReleaseLaw | packages/db/src/blob-store.ts:157-174 | A release of live external content takes its file and stamps its row; any other release changes nothing. |
| LibraryLaws.ReferenceLaw | packages/db/src/blob-store.ts:123-150 | A reference to a blob on record is held with the pin it was given, a sweep right after it keeps it and its blob, and giving it up takes exactly that reference. |
| BlobStore.BlobStore.Put | packages/db/src/blob-store.ts:54-99 | Performs exactly the specified effects in order and reports id, hash, size and whether it deduplicated. |
| BlobStore.BlobStore.Restore | packages/db/src/blob-store.ts:251-264 | Writes the file before it clears the row's release stamp. |
| BlobStore.BlobStore.Reference | packages/db/src/blob-store.ts:123-137 | Adds the reference as specified and nothing else. |
| BlobStore.BlobStore.Dereference | packages/db/src/blob-store.ts:139-150 | Removes that reference and nothing else. |
| BlobStore.BlobStore.Release | packages/db/src/blob-store.ts:157-174 | Performs the specified effects, file before row, and says whether it did anything. |
| BlobStore.BlobStore.Compact | packages/db/src/blob-store.ts:211-243 | Removes all orphan rows at once and then their files one by one, and counts rows and bytes. |
| Versions.VersionReadsBack | packages/db/src/object-store.ts:178-212 | A version reads back exactly the bytes its hashes were taken of, unless a blob was released, and then says so: its content always, and its delta if and only if one was kept and its summary is not empty. |
| Versions.AppendVersionFacts | packages/db/src/object-store.ts:475-522 | An append numbers the version right after the latest, its blobs hold the content and, when that is shorter, the delta it was given, whose summary its row records, it holds its own references on them, and no other version changes. |
| Versions.WriteReadsBack | packages/db/src/object-store.ts:96-146 | After a write the object's latest version has the content written; a version the write made is the latest, reads it back, and holds the delta that was kept, which `read` shows unless its summary is empty. |
| LibraryLaws.TargetLaw | packages/db/src/object-store.ts:96-118 | A write lands on the object with that outside identity if there is one, else on the object it names, else on a new one. |
| LibraryLaws.AppendToLaw | packages/db/src/object-store.ts:421-457 | A write to an object sets its title and keeps its identity and deletion; content equal to the latest adds nothing, and other content adds one unflagged version, numbered one higher and named latest. |
| LibraryLaws.DeltaLaw | packages/core/src/renderings.ts:44-50 | A new version holds its delta, text and summary, if and only if the text is shorter than the content. |
| LibraryLaws.DeletedLaw | packages/db/src/object-store.ts:269-295 | A deletion keeps the first stamp and a restore clears it. |
| Versions.KeptDeltaReadsIff | packages/db/src/object-store.ts:178-212 | Of every write that makes a version and keeps a delta: the delta is stored and held, and reads back if and only if its summary is not empty. |
| Versions.EmptySummaryHidesDelta | packages/db/src/object-store.ts:204-210 | A first write with a delta of empty summary: the bytes are stored and referenced for the version, and `read` gives no delta. |
| Versions.CompactsExactlyCompactable | packages/db/src/object-store.ts:351-405 | The version sweep deletes exactly the rows isCompactable accepts and changes no other. |
| Versions.PartialSweepValid | packages/db/src/object-store.ts:351-405 | Stopped between any two candidates, the sweep leaves a valid library with every blob still there. |
| Versions.CompactBlobsKeepsValid | packages/db/src/maintenance.ts:341-359 | The blob sweep removes nothing a version holds. |
| Versions.SweepTwiceRemovesNothingMore | packages/db/src/maintenance.ts:341-359 | After versions and then blobs are swept, neither sweep finds anything at the same time. |
| VersionRuns.NextKeepsValid | packages/db/src/object-store.ts:81-522 | Every write, edit, flag change, release, foreign reference and sweep keeps the library valid: unique increasing ordinals, the latest named, every version holding its blobs. |
| VersionRuns.RunsStayValid | packages/db/src/object-store.ts:81-522 | So does every run of them. |
| VersionRuns.SurvivorsKeepTheirHash | packages/db/src/object-store.ts:351-405 | A version still there after any run has the content and delta hashes and the delta's summary it was written with. |
| VersionRuns.SurvivorsReadBack | packages/db/src/object-store.ts:178-212 | After any run a surviving version reads back exactly the bytes written for it, unless a blob is released, although blobs are shared: its content, and its delta if and only if one was kept with a summary that is not empty. |
| VersionRuns.TopNeverFalls | packages/db/src/object-store.ts:475-522 | An object's highest ordinal never falls, compaction included. |
| VersionRuns.OrdinalsNeverReused | packages/db/src/object-store.ts:475-522 | A version that appears later outnumbers every version its object ever had, compacted ones included. |
| VersionRuns.RetainedSurvives | packages/core/src/versions.ts:44-56 | The latest, a pinned or a run-referenced version survives every next step. |
| Crashes.AfterIntact | packages/db/src/object-store.ts:81-522 | A put, a blob sweep, a version sweep, a write or an edit cut between any two of its steps, or any operation whole, leaves every version holding its blobs, ordinals unique and named versions there; it changes no surviving row's object, number or hashes, and removes no version that is named latest, pinned or run-referenced. |
| Crashes.ValidIsIntact | packages/db/src/object-store.ts:81-522 | Every library that uncut operations lead to meets the weaker invariant cuts keep. |
| Crashes.UncutNamesHighest | packages/db/src/object-store.ts:459-472 | There each object's highest version is the one it names. |
| Crashes.SurvivorsReadBackThroughCrashes | packages/db/src/object-store.ts:178-212 | Through any run of whole and cut operations a surviving version reads back the bytes it was written with, or says that a blob was released: its content, and its delta if and only if one was kept with a summary that is not empty. |
| Crashes.RetainedThroughCrashes | packages/core/src/versions.ts:44-56 | Through any such run a version is there for as long as each step finds it named latest, pinned or run-referenced. |
| LibraryLaws.MarkLaw | packages/db/src/object-store.ts:322-330 | Marking flags exactly the named versions as used by a run, pins those it was asked to, unpins none, and changes no other row. |
| LibraryLaws.PinLaw | packages/db/src/object-store.ts:333-341 | Pinning sets exactly the pin of the named versions to what was asked. |
| LibraryLaws.ClearLaw | packages/db/src/run-store.ts:1249-1254 | Clearing takes the mark of the named versions and leaves every pin. |
| LibraryLaws.MarkedSurvives | packages/core/src/versions.ts:44-56 | A version marked as used is still there, and marked, after any run of writes, edits, flags, sweeps and cut steps that clears no mark of it. |
| LibraryLaws.PinnedSurvives | packages/core/src/versions.ts:44-56 | A pinned version is still there, pinned, after any such run that does not unpin it. |
| LibraryLaws.SweepLaw | packages/db/src/object-store.ts:351-405 | A sweep removes a version if and only if it is unmarked, unpinned, older than the window by its stamp, and not what its object names as latest. |
| Crashes.UnnamedIsSweptIff | packages/db/src/object-store.ts:421-449 | Cut after a version's row and before its naming, an append leaves the object's highest version, which the version sweep lists if and only if it is older than the window; writing the same content again changes neither. |
| Crashes.NumberIsReusedIff | packages/db/src/object-store.ts:475-522 | After that sweep the object's next version gets the lost one's number if that one was older than the window, and the number after it if not. |
| ObjectStore.ObjectStore.Write | packages/db/src/object-store.ts:96-146 | Creates or reconciles, by outside identity and then by the caller's id, exactly as specified. |
| ObjectStore.ObjectStore.Edit | packages/db/src/object-store.ts:155-171 | Appends a version to an existing object as specified and refuses a missing one. |
| ObjectStore.ObjectStore.AppendTo | packages/db/src/object-store.ts:421-457 | Appends a version unless the latest already has this content, and says which. |
| ObjectStore.ObjectStore.AppendVersion | packages/db/src/object-store.ts:475-522 | Stores and references the blobs and adds the numbered row, exactly as specified. |
| ObjectStore.ObjectStore.MarkRunReferenced | packages/db/src/object-store.ts:322-330 | Every version named and present is flagged, and pinned if that was asked; the table is otherwise as LibraryLaws.MarkLaw says. |
| ObjectStore.ObjectStore.SetPinned | packages/db/src/object-store.ts:333-341 | Pins or unpins exactly the versions named. |
| ObjectStore.ObjectStore.CompactVersions | packages/db/src/object-store.ts:351-405 | Drops each candidate with its references in a step of its own, as specified, and counts them. |
| ObjectStore.Maintenance.Compact | packages/db/src/maintenance.ts:341-359 | Sweeps versions and then blobs, leaves a valid library, and leaves no candidate and no orphan. |
| RunQueue.OutcomeOf | apps/server/src/runs/queue.ts:740-793 | Completed and ended by the user mean done, failed and out of budget mean failed, interrupted and stopped mean interrupted and cancelled, and nothing else does. |
| QueueRuns.PauseFollows | packages/db/src/run-queue-store.ts:137-151 | Pausing, in whatever state the batch is, keeps every invariant of the queue and moves no entry that is over. |
| QueueRuns.ResumeFollows | packages/db/src/run-queue-store.ts:158-172 | Resuming leaves no paused entry in the running batch and moves no entry that is over. |
| QueueRuns.AbortFollows | packages/db/src/run-queue-store.ts:179-199 | Aborting leaves no paused or re-asking entry in the batch and moves no entry that is over. |
| QueueRuns.FinishFollows | packages/db/src/run-queue-store.ts:202-218 | A batch is marked completed only when everything in it is over, although the test does not look for paused entries. |
| QueueRuns.NextFollows | apps/server/src/runs/queue.ts:310-1183 | Every step keeps the queue sound (a running batch has no paused entry, a completed one only settled entries, an aborted one nothing paused or re-asking, an entry is stamped settled exactly when it is), rewrites no ordering key, changes no settled entry, and lets a started run keep its run and session. |
| QueueRuns.EveryRunFollows | apps/server/src/runs/queue.ts:310-1183 | The same over every run: nothing settled ever changes and no entry is ever bound twice. |
| QueueStops.BatchMovesIff | apps/server/src/runs/queue.ts:740-793 | A batch becomes paused exactly when a run of it fails, runs out of budget, is interrupted or refused; aborted exactly when one is stopped; running exactly by a resume while paused; completed only from running; and leaves aborted exactly when a run of it still in flight ends badly. |
| QueueStops.CompletedIsClosed | packages/db/src/run-queue-store.ts:202-218 | In a completed batch every entry is settled. |
| QueueStops.ClosedForEver | packages/db/src/run-queue-store.ts:174-218 | A completed batch, or an aborted one whose entries are all settled, keeps its row and its entries unchanged through every run and gains no entry. |
| QueueStops.DormantForEver | packages/db/src/run-queue-store.ts:174-218 | An aborted batch with nothing starting or running stays aborted through every run: its row never changes, it gains no entry, and none of its entries, re-queued ones included, is ever given a run. |
| QueueStops.StoppedMeansStopped | packages/db/src/run-queue-store.ts:174-199 | Everything a user stop finds not yet started is cancelled and stays cancelled and unrun through every later run. |
| QueueStops.AbortedBatchResumes | apps/server/src/runs/queue.ts:649-685 | From any sound queue, a starting or running entry of an aborted batch that fails makes the batch resumable. |
| QueueStops.RunsAgainIff | packages/db/src/run-queue-store.ts:174-199 | An aborted batch can come to run again, by whatever run of steps, if and only if one of its entries is starting or running. |
| QueueStops.StoppedBatchRunsAgain | apps/server/src/runs/queue.ts:740-793 | With two runs of a batch in flight, stopping one, failing the other and resuming leaves the stopped batch running. |
| QueueStops.BothRunningIsReached | apps/server/src/runs/queue.ts:1046-1158 | Such a queue is reached from an empty one. |
| QueueLaws.EndSettles | apps/server/src/runs/queue.ts:740-793 | An end settles its entry as done exactly if it completed or the user ended it, failed exactly if it failed or ran out of budget, interrupted and cancelled exactly if it was interrupted or stopped, each with its own detail and the time. |
| QueueLaws.SessionEndSettles | apps/server/src/runs/queue.ts:708-726 | So does the end of the session bound to an entry that is not settled. |
| QueueLaws.BindSettles | apps/server/src/runs/queue.ts:1110-1183 | So does a session that is found over when its entry is bound to it. |
| QueueLaws.PauseLaw | packages/db/src/run-queue-store.ts:137-151 | Pausing parks exactly the queued entries of the batch with the reason, and changes no other row. |
| QueueLaws.ResumeLaw | packages/db/src/run-queue-store.ts:158-172 | Resuming queues exactly the paused entries of the batch and clears their detail and its reason. |
| QueueLaws.AbortLaw | packages/db/src/run-queue-store.ts:179-199 | Aborting cancels exactly the queued, re-asking and paused entries of the batch, with reason and time. |
| QueueLaws.ReclaimLaw | packages/db/src/run-queue-store.ts:474-494 | A restart queues exactly the starting entries again, with no start time. |
| QueueLaws.FinishLaw | packages/db/src/run-queue-store.ts:202-218 | A batch completes if and only if it runs and each of its entries is done, failed, interrupted, cancelled or paused. |
| QueueLaws.RowLaw | packages/db/src/run-queue-store.ts:349-448 | Each verb on one entry writes the state, detail, stamps and contract it is for, and leaves the others. |
| QueueLaws.InitiateLaw | apps/server/src/runs/queue.ts:310-381 | A new key with items opens one running batch with one queued entry for each item, in order; a used key or no items change nothing. |
| QueueLaws.CancelLaw | apps/server/src/runs/queue.ts:564-588 | A cancel settles a queued, re-asking or paused entry as cancelled; any other is refused and nothing changes. |
| QueueLaws.ConfirmLaw | apps/server/src/runs/queue.ts:596-647 | A confirmed entry takes the new contract and is queued in a running batch and paused in a paused one; anything else is refused. |
| QueueLaws.AdmitLaw | apps/server/src/runs/queue.ts:1046-1183 | What a turn leaves of an entry, for every answer: parked or cancelled with its batch, still queued, cancelled, re-asking, failed with its batch paused, running, or settled by an end already known. |
| QueueOrder.WaitingIsAQueue | packages/db/src/run-queue-store.ts:275-289 | waiting() lists exactly the queued entries, each once; of two of them the one in front was enqueued earlier, or at the same time with a position no higher. |
| QueueOrder.LaterWaitsBehind | packages/db/src/run-queue-store.ts:275-289 | Of two queued entries, the one enqueued earlier waits in front, whatever their positions. |
| QueueOrder.EarlierPlaceInFront | packages/db/src/run-queue-store.ts:275-289 | Of two queued entries enqueued together, the one with the lower position waits in front. |
| QueueOrder.LaterBatchNeverOvertakes | packages/db/src/run-queue-store.ts:275-289 | After any run that follows its initiation, no entry of a later batch waits in front of one enqueued before it. |
| QueueOrder.EarlierKeyFirst | packages/db/src/run-queue-store.ts:275-289 | Every waiting entry shows exactly one position, and of two the one with the strictly earlier key shows the smaller. |
| QueueOrder.NeverSwapped | packages/db/src/run-queue-store.ts:137-494 | Two entries with different keys that wait before and after any run keep their order, pauses, resumes, re-asks and restarts in between included. |
| QueueOrder.NextNoneIdle | apps/server/src/runs/queue.ts:649-685 | After every step each running batch still has something to come, save one a resume has just set going and not yet looked at again. |
| QueueOrder.EveryRunNoneIdle | apps/server/src/runs/queue.ts:677-682 | Over any run in which each resume gets its second look, no batch is left running with nothing to run. |
| Scopes.Order | apps/server/src/runs/scopes.ts:254-295 | The rounds end and place every command of the scope exactly once, cycles included; every producer stands before its consumers if and only if the scope's own needs have no cycle. |
| Scopes.ProducersFirstIffAcyclic | apps/server/src/runs/scopes.ts:254-295 | The same of the order as a function of the needs and the scope. |
| Scopes.FreeScopeAscends | apps/server/src/runs/scopes.ts:254-295 | Commands that need nothing of each other are enqueued in ascending order. |
| BatchStanding.StandingIff | apps/server/src/runs/queue.ts:844-893 | An entry is abandoned if and only if some input's producer in its batch is over without being done and the input is unbound, however many producers are still to come; otherwise it waits if and only if some producer is not over. |
| QueueLaws.WaitsForTheUnsettled | apps/server/src/runs/queue.ts:844-893 | A waiting entry is told exactly the producers among its inputs that are not settled, and an abandoned one exactly those failed, interrupted or cancelled whose output is missing. |
| QueueLaws.BoundNeverAbandons | apps/server/src/runs/queue.ts:870-877 | Inputs that are all bound abandon nobody. |
| QueueLaws.SeesItsBatch | apps/server/src/runs/queue.ts:850-857 | An entry sees exactly the other commands of its batch, each in the state of one of its entries. |
| QueueLaws.LastEntryTells | apps/server/src/runs/queue.ts:855-857 | Of several entries of one command the last one gives the state. |
| QueueLaws.EndDecidesStanding | apps/server/src/runs/queue.ts:844-893 | Right after its only producer in the batch ended, an entry is ready if and only if that end was completed or by the user, or its inputs from it are bound; otherwise it is abandoned. |
| BatchStanding.InitiatedInNeedOrderIff | apps/server/src/runs/queue.ts:352-371 | A scope enqueued in its order stands in need order, each entry strictly behind those it needs, if and only if its needs have no cycle. |
| BatchStanding.NeedOrderForEver | packages/db/src/run-queue-store.ts:275-289 | Need order, once there, holds through every run. |
| Stranding.StrandedIff | apps/server/src/runs/queue.ts:994-1183 | Whatever admission finds, a finished pass leaves a batch running with an entry waiting and nothing of it starting, running or re-asking if and only if the batch ran before with nothing of it alive, each of its turns was told to wait, was abandoned or started a session already done, and some turn was told to wait. |
| Stranding.NobodyStranded | apps/server/src/runs/queue.ts:820-893 | When a pass ends with a slot to spare, no entry of a running batch in need order waits unless something of that batch is starting, running or re-asking. |
| Stranding.OutOfOrderStrands | apps/server/src/runs/queue.ts:1046-1105 | Without need order: a queue reached from the empty one by an initiation and a cancel, acyclic needs, and a finished pass that strands the batch. |
| Foresight.StrandedIffDoomed | apps/server/src/runs/queue.ts:844-1183 | On wiring that stands still, with a position for each entry and no session over as soon as it starts, a pass in queue order strands a batch if and only if, by the rows and the wiring before it, the batch runs, nothing of it is alive, and going through those of it that wait, calling off the abandoned, nobody is ready and somebody is told to wait. |
| Foresight.TurnsAreAhead | packages/db/src/run-queue-store.ts:275-289 | The list that is gone through is exactly the batch's waiting entries, each once, in queue order. |
| Foresight.InitiatedKeysDiffer | apps/server/src/runs/queue.ts:352-371 | The entries of a scope whose positions differ never tie in queue order. |
| Foresight.KeysDifferForEver | packages/db/src/run-queue-store.ts:275-289 | Nor do they after any run. |
| Arrivals.AmidFollows | apps/server/src/runs/queue.ts:1046-1183 | A turn keeps the queue sound and settled rows unchanged whatever steps of other callers come between its start and its outcome. |
| Arrivals.QuietPass | apps/server/src/runs/queue.ts:1011-1034 | A pass during which no step of another caller came leaves exactly what admission alone leaves. |
| Arrivals.LastPassStrandsIffDoomed | apps/server/src/runs/queue.ts:994-1039 | The last pass of a drain, undisturbed and not called again, strands a batch if and only if its rows and wiring foretold it when that pass began. |
| Admission.AdmitTakesOut | apps/server/src/runs/queue.ts:1046-1183 | Admission puts nothing into the queue, keeps the queue sound, and leaves its own entry waiting only when its producers are still to come. |
| QueueStore.RunQueueStore.BatchByKey | packages/db/src/run-queue-store.ts:86-92 | Finds a batch of that key, or there is none. |
| QueueStore.RunQueueStore.CreateBatch | packages/db/src/run-queue-store.ts:94-115 | Adds one running batch and nothing else. |
| QueueStore.RunQueueStore.Enqueue | packages/db/src/run-queue-store.ts:222-248 | Adds one queued entry and nothing else. |
| QueueStore.RunQueueStore.PauseBatch | packages/db/src/run-queue-store.ts:137-151 | Pauses the batch and exactly its queued entries; a missing batch is reported and nothing changes. |
| QueueStore.RunQueueStore.ResumeBatch | packages/db/src/run-queue-store.ts:158-172 | Sets the batch running and exactly its paused entries queued. |
| QueueStore.RunQueueStore.AbortBatch | packages/db/src/run-queue-store.ts:179-199 | Aborts and stamps the batch and cancels exactly its queued, paused and re-asking entries. |
| QueueStore.RunQueueStore.SettleBatchIfFinished | packages/db/src/run-queue-store.ts:202-218 | Completes a running batch exactly when nothing in it is queued, starting, running or re-asking. |
| QueueStore.RunQueueStore.MarkStarting | packages/db/src/run-queue-store.ts:349-356 | Rewrites that one row as specified, or reports it missing. |
| QueueStore.RunQueueStore.MarkRunning | packages/db/src/run-queue-store.ts:358-372 | Binds the run and session to that one row. |
| QueueStore.RunQueueStore.MarkNeedsReask | packages/db/src/run-queue-store.ts:380-387 | Puts that one row to the re-ask, its recorded contract unchanged. |
| QueueStore.RunQueueStore.Park | packages/db/src/run-queue-store.ts:397-404 | Parks that one row without settling it. |
| QueueStore.RunQueueStore.Reconfirm | packages/db/src/run-queue-store.ts:407-432 | Replaces that one row's contract and state. |
| QueueStore.RunQueueStore.Settle | packages/db/src/run-queue-store.ts:434-448 | Settles and stamps that one row. |
| QueueStore.RunQueueStore.ReclaimUnstarted | packages/db/src/run-queue-store.ts:474-494 | The loop puts back exactly the starting entries, order keys unchanged, and returns them. |
| QueueStore.RunQueueStore.Waiting | packages/db/src/run-queue-store.ts:275-289 | Lists exactly the waiting entries numbered from one, those enqueued earlier in front, and of those enqueued together the lower position. |
| QueueService.RunQueueService.Initiate | apps/server/src/runs/queue.ts:310-381 | One key makes at most one batch; a new one enqueues the whole scope in order; an empty scope is refused and changes nothing. |
| QueueService.RunQueueService.Cancel | apps/server/src/runs/queue.ts:564-588 | Cancels exactly an entry that has not started, then completes its batch if that was the last. |
| QueueService.RunQueueService.Confirm | apps/server/src/runs/queue.ts:596-647 | Accepts the fresh contract exactly for a re-asking entry of a batch that is not over, and keeps it for the resume if the batch is paused. |
| QueueService.RunQueueService.Resume | apps/server/src/runs/queue.ts:649-673 | Resumes exactly a paused batch. |
| QueueService.RunQueueService.SettleEntryFor | apps/server/src/runs/queue.ts:740-793 | Settles the entry and pauses, aborts or completes its batch as specified; QueueLaws.EndSettles says which end gives which outcome and detail. |
| QueueService.RunQueueService.SessionEnded | apps/server/src/runs/queue.ts:708-726 | Settles the entry that names the session, as QueueLaws.SessionEndSettles says, unless there is none or it is settled. |
| QueueService.RunQueueService.Decline | apps/server/src/runs/queue.ts:1049-1070 | An entry whose batch is not running is parked or cancelled, never left queued. |
| QueueService.RunQueueService.InBatchStanding | apps/server/src/runs/queue.ts:844-893 | The two loops compute exactly the specified standing. |
| QueueService.RunQueueService.Receive | apps/server/src/runs/queue.ts:994-1008 | Steps of other callers take effect in order; a call that finds the drain under way is remembered unless the queue has been stopped. |
| QueueService.RunQueueService.Admit | apps/server/src/runs/queue.ts:1046-1183 | One turn looks at the batch, then at the entry's producers, then at its contract, and takes exactly the specified steps for what it found, with whatever came while the start was awaited between the start and its outcome. |
| QueueService.RunQueueService.NextUntried | apps/server/src/runs/queue.ts:1027-1031 | Finds the waiting entry enqueued first, and among those enqueued together one of the lowest position, that this pass has not looked at, or there is none. |
| QueueService.RunQueueService.Pass | apps/server/src/runs/queue.ts:1011-1034 | The pass ends, gives no entry two turns, and leaves exactly what its turns and arrivals make; undisturbed, it takes the entries in queue order; and unless it was stopped or the slots are full, every entry still waiting had its turn and, undisturbed, was told that a producer is still to come. |
| QueueService.RunQueueService.Drain | apps/server/src/runs/queue.ts:994-1039 | A stopped queue is left alone, and a call during a drain only remembered. Otherwise the drain ends; it leaves exactly what its passes make; each pass but the last was called during, and the last was not unless the queue was stopped, so every call is followed by one more pass and nothing else is; and unless stopped or full, the last pass finished. |
| Observations.RemainingCount | apps/session-host/src/observations.ts:82-104 | For every text as many injections remain as the smaller of how many are pending and how many the queue holds. |
| Observations.Partitions | apps/session-host/src/observations.ts:82-104 | Every pending injection is delivered or remains, never both and never neither. |
| Observations.DeliversExactlyUnqueued | apps/session-host/src/observations.ts:82-104 | With distinct ids exactly the injections whose copy of the text the queue no longer holds are delivered, and both sides keep the order of acceptance. |
| Observations.InjectionsConserved | apps/session-host/src/observations.ts:106-139 | Over any history, distinct ids or not, each id is delivered, dropped by a refusal or still pending exactly as often as it was accepted. |
| Observations.DeliveredAtMostOnce | apps/session-host/src/observations.ts:106-139 | With distinct ids no injection is reported delivered twice. |
| Observations.RefusedNeverDelivered | apps/session-host/src/host.ts:207-246 | After a refusal no later turn reports that injection delivered. |
| Observations.FirstStay | apps/session-host/src/observations.ts:82-104 | Of injections with the same text the earlier ones stay queued longer. |
| TimelineLaws.TurnOpensLaw | apps/session-host/src/observations.ts:120-139 | A turn start is reported with the next number, and then exactly the injections that leave the pending list are reported delivered: those of which the queue, if there is one, holds no copy beyond the earlier ones. |
| TimelineLaws.ReportsLaw | apps/session-host/src/observations.ts:120-232 | A turn end is reported exactly while the turn is open, with its tokens, cost and context window, or zero tokens and no cost without usage; a call is reported failed exactly if it said so; other events as what they are. |
| SessionHost.DiffDeliveredAtTurnStart | apps/session-host/src/observations.ts:82-104 | The loop that splices matched texts out of the queue computes exactly the specified two sides. |
| SessionHost.ObservationTranslator.TrackInjection | apps/session-host/src/observations.ts:112-114 | Adds the injection last and changes nothing else. |
| SessionHost.ObservationTranslator.UntrackInjection | apps/session-host/src/observations.ts:116-118 | Drops exactly the injections of that id. |
| SessionHost.ObservationTranslator.Translate | apps/session-host/src/observations.ts:120-232 | Each event leaves the specified state and yields the specified observations; an end with no turn open yields none. |
| SessionHost.RequestBridge.Raise | apps/session-host/src/request-bridge.ts:51-65 | A raised request gets an id never used, is reported once and waits. |
| SessionHost.RequestBridge.Settle | apps/session-host/src/request-bridge.ts:67-83 | Answers exactly a waiting request, once, releasing its call with that outcome; anything else changes nothing and says so. |
| SessionHost.Host.InjectCommand | apps/session-host/src/host.ts:138-161 | The injection is tracked and acknowledged; nothing is reported delivered. |
| SessionHost.Host.PromptRejected | apps/session-host/src/host.ts:207-246 | A rejected injection is untracked and reported refused; a rejected prompt is a non-fatal error. |
| SessionHost.Host.Respond | apps/session-host/src/host.ts:163-181 | An answer is acknowledged exactly when it released a waiting call, and otherwise refused. |
| SessionHost.Host.OnEvent | apps/session-host/src/host.ts:81-94 | Each observation of an event is written as one frame, in order. |
| Timeline.ViewsAgree | packages/core/src/session-timeline.ts:65-179 | For any log, repeated and unmatched call ids included, the turns' calls read in order are the flat list less the calls started before the first turn, with the same settled values. |
| TimelineTotals.HostKeepsTurnsInSequence | apps/session-host/src/observations.ts:120-165 | For any events with times that never go back, turns are numbered 1 to n, each starts once and ends at most once, closed turns do not overlap, and only the last can be open. |
| TimelineTotals.Telescopes | packages/core/src/session-timeline.ts:167-190 | Busy, idle and the time after turns nobody saw end add up exactly to the span from first start to last boundary, and the last part is zero exactly when no such turn took time. |
| TimelineTotals.HostTimeAddsUp | packages/core/src/session-timeline.ts:79-190 | For every such log busy and idle time never exceed the span, and equal it when every turn but the last was seen to end. |
| TimelineTotals.AttachesToLastTurn | packages/core/src/session-timeline.ts:108-128 | A starting call joins the flat list and, if and only if any turn has started, the last turn, behind the calls it has, and no other; that is the documented rule exactly while the last turn is open or there is none. |
| TimelineTotals.CallLandsInEndedTurn | packages/core/src/session-timeline.ts:108-128 | A host log of a turn that starts and ends and a call that starts then: the call is in the ended turn. |
| TimelineTotals.CostKnownIff | packages/core/src/session-timeline.ts:192-201 | A total cost is given if and only if some turn reported one, and equals the sum counting unpriced turns as nothing. |
| TimelineLaws.EverythingStands | packages/core/src/session-timeline.ts:65-174 | Every turn and call of a timeline stands in its log: begun by an entry of its own, and either open or ended by a later entry whose time, usage, cost or failure it shows. |
| TimelineLaws.NothingDropped | packages/core/src/session-timeline.ts:79-128 | There are as many turns and calls as entries that begin one. |
| TimelineLaws.EndLands | packages/core/src/session-timeline.ts:93-106 | A turn end closes the first open turn of its number with its time, usage and cost, and touches no other turn. |
| TimelineLaws.EndWithoutTurn | packages/core/src/session-timeline.ts:93-97 | A turn end without such a turn changes no turn. |
| TimelineLaws.FinishLands | packages/core/src/session-timeline.ts:130-151 | A call end settles the last call of its id with its time and failure if that one still runs, and no call otherwise. |
| TimelineLaws.SpanLaw | packages/core/src/session-timeline.ts:76-174 | A timeline starts with the first observation and ends with the last that says the session is over. |
| TimelineLaws.TurnShowsItsEvent | apps/session-host/src/observations.ts:141-165 | When the runtime ends the open turn, the last turn of the timeline closes with the tokens, cost and time of that event, or with none if it gave none. |
| SessionTimeline.Project | packages/core/src/session-timeline.ts:65-174 | The pass over the log computes the specified fold and totals, and its two views of the calls agree. |
| SessionTimeline.Take | packages/core/src/session-timeline.ts:79-157 | One observation leaves exactly the specified fold. |
| SessionTimeline.FindTurn | packages/core/src/session-timeline.ts:94-97 | Finds the first turn of that number not yet ended. |
| SessionTimeline.SettleInTurns | packages/core/src/session-timeline.ts:141-149 | The settled call replaces itself wherever a turn holds it and nothing else changes. |
| SessionTimeline.IdleBetween | packages/core/src/session-timeline.ts:181-190 | Sums the gaps after ended turns. |
| SessionTimeline.CostOf | packages/core/src/session-timeline.ts:192-201 | No cost when no turn reported one, and otherwise the sum of those that did. |
| Estimates.RangeIff | packages/core/src/runs.ts:298-315 | A range is given if and only if some run recorded a cost. |
| Estimates.RangeBrackets | packages/core/src/runs.ts:317-335 | Low and high are recorded costs bounding all others, the rounded median lies between them, and half the costs lie on either side of it. |
| Estimates.DependsOnCostsOnly | packages/core/src/runs.ts:298-335 | The estimate depends only on which positive costs were recorded and how often. |
| Estimates.UnpricedRunIsIrrelevant | packages/core/src/runs.ts:293-306 | A run without a cost, added anywhere, changes nothing. |
| Estimates.OrderIsIrrelevant | packages/core/src/runs.ts:298-335 | The same runs in any order give the same estimate. |
| Estimates.MedianLaw | packages/core/src/runs.ts:317-335 | The median is the middle cost, or half the sum of the two middle costs, rounded up. |
| Estimates.BasisLaw | packages/core/src/runs.ts:298-315 | An estimate is based on prior runs if and only if one recorded a cost, and passes the size of its input on. |
| Outcomes.HistogramSumsToAttempts | packages/core/src/run-comparison.ts:412-420 | The histogram has one row for exactly the statuses that occurred, each with its count, and the rows sum to the attempts. |
| Outcomes.CommandCountsSumToAttempts | packages/core/src/run-comparison.ts:422-432 | The run counts of all commands sum to the attempts. |
| Outcomes.AggregateIgnoresOrder | packages/core/src/run-comparison.ts:406-475 | The same runs in any order give the same aggregate, cost estimate included. |
| Outcomes.AggregateRunOutcomes | packages/core/src/run-comparison.ts:406-475 | The loops over maps compute exactly the specified aggregate. |
| Outcomes.AttemptsOfCompleted | packages/core/src/run-comparison.ts:434-441 | Over the commands that ever completed: all their runs, and how many they are. |
| Outcomes.HundredthsLaw | packages/core/src/run-comparison.ts:477-479 | A shown average lies within half a hundredth of the true one, and halves go up. |
| Outcomes.AggregateLaw | packages/core/src/run-comparison.ts:406-475 | Attempts per completion are known exactly if some run completed, and then are the rounded average over the commands that completed; submissions per run likewise over all runs. |
| Outcomes.CostLaw | packages/core/src/run-comparison.ts:406-475 | The cost range of an aggregate spans exactly the costs its runs recorded, from the cheapest to the dearest. |
| Outcomes.OneRunMore | packages/core/src/run-comparison.ts:422-466 | One run more adds its own submissions and counts once for its command. |
| Release.ReleaseIsTheNext | scripts/release/version.ts:80-129 | A release is derived if and only if some commit earns one, and its version is the lowest above the previous that differs at the bumped component. |
| Release.BumpIsTheStrongest | scripts/release/version.ts:80-129 | The bump is the strongest any commit earns, breaking counting as minor below 1.0.0, and the reason is exactly the commits that earned it. |
| Release.ReleaseInTypes | scripts/release/version.ts:80-129 | By name: a breaking change bumps major from 1.0.0 on and minor before, else `feat` bumps minor, else `fix` or `perf` patch, and other types alone release nothing. |
| Release.TextLeqIff | scripts/release/notes.ts:73-80 | Texts are ordered by their first difference, a prefix first. |
| Release.UnclassifiedTypes | scripts/release/version.ts:137-145 | Returns exactly the types of the range the lookup finds nothing for, own or inherited, each once, sorted. |
| Release.PassesWithoutRowIff | scripts/release/version.ts:137-145 | The lookup finds something for a type without a row if and only if every object literal answers to that name. |
| Release.LowerCaseInherited | scripts/release/commits.ts:31-37 | Of the types the subject pattern accepts that is exactly `constructor`. |
| Release.NothingUnclassifiedIff | scripts/release/version.ts:132-145 | With nothing reported, every type of the range has a rule if and only if none of them is an inherited name. |
| VersionText.ParseReadsFormat | scripts/release/version.ts:46-61 | For all components a written version reads back as itself, bare or tagged with v, with blanks around it. |
| VersionText.ParsesExactlyDotted | scripts/release/version.ts:50-61 | A text is read as a version if and only if, blanks and one v aside, it is three runs of digits joined by dots, and then as their values. |
| VersionText.FormatIsInjective | scripts/release/version.ts:46-48 | Different versions are written differently. |
| VersionText.FormatWritesParsed | scripts/release/version.ts:46-61 | Numerals without leading zeros are written back as they were read. |
| Notes.EveryCommitOnceIff | scripts/release/notes.ts:73-93 | The notes list every commit exactly as often as it occurs if and only if every type of the range has a heading of its own. |
| Notes.CheckedNotesIff | scripts/release/notes.ts:36-44 | With no type reported, the notes list every commit if and only if no type of the range is an inherited name. |
| Notes.ConstructorIsDropped | scripts/release/notes.ts:34-44 | For a commit of type `constructor` both checks report nothing and the notes list nothing. |
| Notes.EntriesCount | scripts/release/notes.ts:82-93 | A commit is listed as often as it occurs if its type is rendered, and otherwise never. |
| Notes.SectionsInOrder | scripts/release/notes.ts:73-93 | No section is empty or repeated, each holds one type, and its entries go by scope and then description. |
| Notes.EntriesInOrder | scripts/release/notes.ts:73-80 | In a section entries without a scope come first, then by scope, then by description. |
| Notes.BreakingIsMarked | scripts/release/notes.ts:46-58 | The line of a breaking commit is the line it would have had, with the mark in front. |
| Notes.MarkedIff | scripts/release/notes.ts:46-58 | A line begins with the mark if and only if its commit is breaking or its own words begin so. |
| Notes.ScopeIsMarked | scripts/release/notes.ts:46-58 | A scope is put in bold in front of the same words, which begin with the description and close with at most eight characters of the hash. |
| Notes.NewsFirst | scripts/release/notes.ts:13-33 | Notes with a feature begin with the features, and without one, with the fixes if there are any. |
| RangeOrder.OrderShowsInSectionsIff | scripts/release/notes.ts:60-93 | The sections are the same for every order of the range if and only if no two commits of a rendered type share type, scope and description. |
| RangeOrder.OrderShowsInTextIff | scripts/release/notes.ts:60-93 | The text is the same for every order of the range if and only if no two such commits differ in the line that lists them. |
| RangeOrder.NoTieNoDifference | scripts/release/notes.ts:60-93 | The second half of that for any fields, line ends included. |
| RangeOrder.TwoOrdersTwoTexts | scripts/release/notes.ts:60-93 | Two features in the same words with different hashes: the text depends on their order. |
| Notes.HeadingsMatchRules | scripts/release/notes.ts:13-33 | A type has a heading of its own if and only if it has a bump rule, and both lookups answer to the same inherited names. |
| Notes.HeadinglessTypes | scripts/release/notes.ts:36-44 | Returns exactly the types the heading lookup finds nothing for, sorted; if it returns any, a commit is missing, and if none, the notes list every commit if and only if no type is an inherited name. |
| Notes.RenderNotes | scripts/release/notes.ts:73-93 | The loop over the types joins exactly the specified sections in their fixed order. |

## Left out

- BoardUndo.UndoAcrossRun: stamps are whole seconds, so that no edge through the node already carries the stamp is a hypothesis; the exact condition is part of UndoIsIdentityIff. A session recorded as its own parent, which the schema admits and no chain survives, is kept out of the gestures in between.
- BoardRuns.InstantiateKeepsSound: the corollary for generated ids, which are required to name nothing yet, because nothing in the model generates them; NextIsSoundIff has the exact condition for any ids.
- QueueService.RunQueueService.Drain: what arrives is given, one finite group for each start that is awaited, and the limit does not change meanwhile; a gesture and the call to drain that follows it are two arrivals, since not every gesture calls.
- QueueService.RunQueueService.Initiate: the scope's commands, their previews and the own-chain check of the gesture are given, one clock reading serves all its entries, and a replayed key answers with the batch only.
- QueueService.RunQueueService.Admit: the wiring an entry finds, whether its contract drifted, and how its start went are inputs, and the detail of an abandoned entry does not list its producers.
- Admission.AdmitTakesOut: the answer is any at all; BatchStanding says how the standing in it comes about.
- Stranding.NobodyStranded: it is about one finished pass that no step of another caller disturbed, with the wiring found then within the needs the scope was ordered by.
- Foresight.StrandedIffDoomed: a session over as soon as it starts is left out there because it calls for another pass, and Drain makes it; StrandedIff has it.
- Scopes.Order: which commands a scope includes is given.
- Observations.RefusedNeverDelivered: an injection refused after it was reported delivered is not ruled out, as in the code.
- Blobs.ReleaseKeepsValid: a release counts as one step here; it is not crash safe, and ReleaseCutLosesContent says exactly when.
- Versions.VersionReadsBack: the two halves of a read answer separately, where the original fails as a whole when either blob was released; the card and the one-line summary of a rendering are dropped.
- ObjectStore.ObjectStore.Write: the object row, its version and the naming of it are one step; Crashes cuts the write between them.
- Crashes.AfterIntact: a release is whole there, since a cut one is not safe (Blobs.ReleaseCutLosesContent).
- VersionText.ParsesExactlyDotted: numerals are exact at any length, where the original loses precision beyond 2^53.
- RangeOrder.OrderShowsInTextIff: no field of a commit holds a line end, which the pattern for subjects guarantees (scripts/release/commits.ts:36-37).
- Notes.SectionsInOrder: characters compare by code point, where the original compares UTF-16 units.
- Outcomes.AggregateRunOutcomes: averages are exact in hundredths, where the original multiplies a double by a hundred and rounds: 201 over 200 gives 1 there and 1.01 here.
- Estimates.RangeBrackets: the sentence that describes an estimate, with its money formatting, is not modelled.
- Compaction of runs, which clears flags and references before the two sweeps, is one abstract step of VersionRuns.
- A delta is compared with its content by byte length, where the original compares UTF-16 lengths of text.
- Positions, creation stamps, kinds, encodings, spend caps, actors and runtime choices of rows are dropped where no rule reads them.
- Entries that tie on time and position wait in table order, which the original's query leaves open.
- Command definitions, parameters, content budgets and submissions; run-to-run comparison.
- Reset plans, inventory and state directories of maintenance; claims, approvals, proposals, settings and plugin stores.
- The JSON framing of the session host, unreadable commands and the stop command; hashing, id generation and file I/O.
- Parsing commits and editing the changelog file.
