/** Command nodes and their output placeholders (packages/db/src/command-store.ts), over the board's tables. */
module CommandStore {
  import opened Wrappers
  import opened Edges
  import opened Lineage
  import opened Board
  import opened GraphStore

  /** What deleting a producer did to one of its outputs. */
  datatype DeletionEffect = BrokenPlaceholder | ObjectIntact(obj: Id)

  function EffectOf(row: OutputRow): DeletionEffect {
    if row.boundObject.Some? then ObjectIntact(row.boundObject.value) else BrokenPlaceholder
  }

  class CommandStore {
    const db: Database
    const graph: GraphStore

    constructor (db: Database)
      ensures this.db == db && graph.db == db
    {
      this.db := db;
      graph := new GraphStore(db);
    }

    method DeclareOutput(command: Id, commandNode: NodeId, d: Declared) returns (r: Result<(), Refusal>)
      requires graph.db == db && db.Valid()
      modifies db
      ensures match Board.DeclareOutput(old(db.Tables()), command, commandNode, d)
              case Done(state, _) => db.Tables() == state && r == Ok(())
              case Refused(reason) =>
                r == Err(reason) && db.objects == old(db.objects) && db.sessions == old(db.sessions)
                    && db.lineage == old(db.lineage)
    {
      if d.output in db.outputs || command !in db.commands {
        return Err(ConstraintViolated);
      }
      db.outputs := db.outputs[d.output := OutputRow(command, None, None, None)];
      var placed := graph.Place(Content, d.output, Some(db.commands[command].workstream), false, d.node);
      if placed.Err? {
        return Err(placed.error);
      }
      var recorded := graph.RecordProvenance(commandNode, placed.value, CommandDeclaresOutput, d.edge);
      return if recorded.Ok? then Ok(()) else Err(recorded.error);
    }

    /** One transaction: the command, its node, its placeholder and its wires, or nothing at all. */
    method Instantiate(g: Instantiation) returns (r: Result<NodeId, Refusal>)
      requires graph.db == db && db.Valid()
      modifies db
      ensures Carries(Board.Instantiate(old(db.Tables()), g), old(db.Tables()), db.Tables(), r)
    {
      var nodes, edges, commands, outputs := db.nodes, db.edges, db.commands, db.outputs;
      r := InstantiateSteps(g);
      if r.Err? {
        db.nodes, db.edges, db.commands, db.outputs := nodes, edges, commands, outputs;
      }
    }

    /** The statements of the transaction; on a refusal the caller rolls back what they wrote. */
    method InstantiateSteps(g: Instantiation) returns (r: Result<NodeId, Refusal>)
      requires graph.db == db && db.Valid()
      modifies db
      ensures match Board.Instantiate(old(db.Tables()), g)
              case Done(state, node) => db.Tables() == state && r == Ok(node)
              case Refused(reason) =>
                r == Err(reason) && db.objects == old(db.objects) && db.sessions == old(db.sessions)
                    && db.lineage == old(db.lineage)
    {
      hide Board.AddContextEdge, Board.Place, Board.DeclareOutput, Board.WireAll;
      if g.command in db.commands {
        return Err(ConstraintViolated);
      }
      db.commands := db.commands[g.command := CommandRow(g.workstream, None)];
      var placed := graph.Place(Command, g.command, Some(g.workstream), false, g.node);
      if placed.Err? {
        return Err(placed.error);
      }
      if g.outcome.Some? {
        var declared := DeclareOutput(g.command, placed.value, g.outcome.value);
        if declared.Err? {
          return Err(declared.error);
        }
      }
      var wired := WireContext(placed.value, g.author, g.context);
      return if wired.Ok? then Ok(placed.value) else Err(wired.error);
    }

    /** Wire the context in the given order, which is assembly order. */
    method WireContext(to: NodeId, author: Author, context: seq<(NodeId, Id)>) returns (r: Result<(), Refusal>)
      requires graph.db == db && db.Valid()
      modifies db
      ensures match WireAll(old(db.Tables()), to, author, context, |context|)
              case Done(state, _) => db.Tables() == state && r == Ok(())
              case Refused(reason) =>
                r == Err(reason) && db.objects == old(db.objects) && db.sessions == old(db.sessions)
                    && db.lineage == old(db.lineage)
    {
      hide Board.AddContextEdge;
      ghost var start := db.Tables();
      for k := 0 to |context|
        invariant WireAll(start, to, author, context, k) == Done(db.Tables(), ())
      {
        var input := ContextInput(None, context[k].0, to, author, None);
        ghost var last := Board.AddContextEdge(db.Tables(), input, context[k].1);
        WireAllNext(start, to, author, context, k, last);
        var wired := graph.AddContextEdge(input, context[k].1);
        if wired.Err? {
          WireAllStops(start, to, author, context, k + 1, wired.error, |context|);
          return Err(wired.error);
        }
      }
      return Ok(());
    }

    method Publish(out: Id, now: Time) returns (r: Result<(), Refusal>)
      modifies db
      ensures Carries(Board.Publish(old(db.Tables()), out, now), old(db.Tables()), db.Tables(), r)
    {
      if out !in db.outputs {
        return Err(NotFound);
      }
      if db.outputs[out].boundObject.Some? {
        return Err(AlreadyBound);
      }
      db.outputs := db.outputs[out := db.outputs[out].(publishedAt := Some(now))];
      return Ok(());
    }

    /** Lift an object to world scope; a world object is left alone. */
    method Promote(obj: Id) returns (r: Result<(), Refusal>)
      modifies db
      ensures Carries(Board.Promote(old(db.Tables()), obj), old(db.Tables()), db.Tables(), r)
    {
      if obj !in db.objects {
        return Err(NotFound);
      }
      if db.objects[obj].scope.Local? {
        db.objects := db.objects[obj := db.objects[obj].(scope := World, workstream := None)];
      }
      return Ok(());
    }

    method BindOutput(out: Id, obj: Id) returns (r: Result<(), Refusal>)
      requires db.Valid()
      modifies db
      ensures Carries(Board.BindOutput(old(db.Tables()), out, obj), old(db.Tables()), db.Tables(), r)
    {
      if out !in db.outputs {
        return Err(NotFound);
      }
      var row := db.outputs[out];
      if obj !in db.objects || row.brokenAt.Some? {
        assert !OutputChecks(db.Tables().(outputs := db.outputs[out := row.(boundObject := Some(obj))])) by {
          assert out in db.outputs[out := row.(boundObject := Some(obj))];
        }
        return Err(ConstraintViolated);
      }
      db.outputs := db.outputs[out := row.(boundObject := Some(obj))];
      assert Constraints(db.Tables());
      if row.publishedAt.Some? {
        r := Promote(obj);
      } else {
        r := Ok(());
      }
    }

    /** Mark the command deleted and break its unbound placeholders, output by output. */
    method Delete(command: Id, now: Time) returns (r: Result<(), Refusal>, effects: map<Id, DeletionEffect>)
      modifies db
      ensures Carries(DeleteCommand(old(db.Tables()), command, now), old(db.Tables()), db.Tables(), r)
      ensures r.Ok? ==>
        effects == map o | o in old(db.outputs) && old(db.outputs)[o].command == command :: EffectOf(old(db.outputs)[o])
    {
      if command !in db.commands {
        return Err(NotFound), map[];
      }
      ghost var before := db.Tables();
      effects := BreakOutputs(command, now);
      db.commands := db.commands[command := db.commands[command].(deletedAt := Some(now))];
      r := Ok(());
    }

    /** What losing its producer does to each of a command's outputs: a bound one lives on, an unbound one is broken. */
    method BreakOutputs(command: Id, now: Time) returns (effects: map<Id, DeletionEffect>)
      modifies db
      ensures db.Tables() == old(db.Tables()).(outputs := MapOutputs(old(db.Tables()), command,
          row => AfterProducerDeleted(row, now)))
      ensures effects == map o | o in old(db.outputs) && old(db.outputs)[o].command == command ::
          EffectOf(old(db.outputs)[o])
    {
      effects := map[];
      ghost var before := db.Tables();
      var mine := set o | o in db.outputs && db.outputs[o].command == command;
      var todo := mine;
      while todo != {}
        invariant todo <= mine
        invariant db.Tables() == before.(outputs := db.outputs) && db.outputs.Keys == before.outputs.Keys
        invariant forall o | o in before.outputs ::
                    db.outputs[o] == if o in mine && o !in todo then AfterProducerDeleted(before.outputs[o], now)
                        else before.outputs[o]
        invariant effects == map o | o in mine - todo :: EffectOf(before.outputs[o])
        decreases todo
      {
        var o :| o in todo;
        var effect := EffectOf(db.outputs[o]);
        effects := effects[o := effect];
        if effect.BrokenPlaceholder? {
          db.outputs := db.outputs[o := db.outputs[o].(brokenAt := Some(now))];
        }
        todo := todo - {o};
      }
      assert db.outputs == MapOutputs(before, command, row => AfterProducerDeleted(row, now));
    }

    /** Bring the command back and mend what its deletion broke. */
    method Restore(command: Id) returns (r: Result<(), Refusal>)
      modifies db
      ensures Carries(RestoreCommand(old(db.Tables()), command), old(db.Tables()), db.Tables(), r)
    {
      if command !in db.commands {
        return Err(NotFound);
      }
      ghost var before := db.Tables();
      db.commands := db.commands[command := db.commands[command].(deletedAt := None)];
      var mine := set o | o in db.outputs && db.outputs[o].command == command;
      var todo := mine;
      while todo != {}
        invariant todo <= mine
        invariant db.Tables() == before.(outputs := db.outputs, commands := db.commands)
            && db.outputs.Keys == before.outputs.Keys
        invariant db.commands == before.commands[command := before.commands[command].(deletedAt := None)]
        invariant forall o | o in before.outputs ::
                    db.outputs[o] == if o in mine && o !in todo then before.outputs[o].(brokenAt := None)
                        else before.outputs[o]
        decreases todo
      {
        var o :| o in todo;
        if db.outputs[o].brokenAt.Some? {
          db.outputs := db.outputs[o := db.outputs[o].(brokenAt := None)];
        }
        todo := todo - {o};
      }
      assert db.outputs == MapOutputs(before, command, (row: OutputRow) => row.(brokenAt := None));
      r := Ok(());
    }
  }

  /** The answer to one more wire is the answer to the longer list. */
  lemma WireAllNext(s: State, to: NodeId, author: Author, context: seq<(NodeId, Id)>, k: nat, last: Outcome<EdgeRow>)
    requires Constraints(s) && Rooted(s.lineage) && k < |context|
    requires WireAll(s, to, author, context, k).Done?
    requires last == AddContextEdge(WireAll(s, to, author, context, k).state,
        ContextInput(None, context[k].0, to, author, None), context[k].1)
    ensures WireAll(s, to, author, context, k + 1) == if last.Done? then Done(last.state, ()) else Refused(last.reason)
  {
  }

  /** The first wire refused is the answer to the whole list. */
  lemma {:induction false} WireAllStops(s: State, to: NodeId, author: Author, context: seq<(NodeId, Id)>, k: nat,
      e: Refusal, j: nat)
    requires Constraints(s) && Rooted(s.lineage) && k <= j <= |context|
    requires WireAll(s, to, author, context, k) == Refused(e)
    ensures WireAll(s, to, author, context, j) == Refused(e)
    decreases j
  {
    if j > k {
      WireAllStops(s, to, author, context, k, e, j - 1);
    }
  }
}
