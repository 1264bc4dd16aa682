/** The registry of function blocks (`src/scripting/fb_registry.rs`).  The persistence backend is
    the map of the objects it holds; a row that is missing or does not parse is absent. */
module FBRegistry {
  import opened Wrappers
  import opened Wiring
  import opened FunctionBlocks
  import opened ScriptContext
  import opened BlockState
  import opened ScanCycle

  datatype Outcome = Created | AlreadyExists(id: string) | UnknownType(fbType: string)

  function RestoreFrom(store: Option<map<string, Fields>>, id: string, b: Block, now: int): Block {
    if store.Some? && id in store.value then Restore(b, store.value[id], now) else b
  }

  function SaveAll(blocks: Blocks): (r: map<string, Fields>)
    ensures r.Keys == blocks.Keys
  {
    map id | id in blocks :: Save(blocks[id])
  }

  /** All blocks loaded. */
  function LoadAll(blocks: Blocks, store: map<string, Fields>, clock: string -> int): (r: Blocks)
    ensures r.Keys == blocks.Keys
  {
    map id | id in blocks :: RestoreFrom(Some(store), id, blocks[id], clock(id))
  }

  class FBRegistry {
    var instances: Blocks
    var definitions: Definitions
    var persistence: Option<map<string, Fields>>

    /** Every block has a definition, and every definition a block. */
    predicate Valid()
      reads this
    {
      instances.Keys == definitions.Keys
    }

    constructor (store: Option<map<string, Fields>>)
      ensures Valid() && instances == map[] && persistence == store
    {
      instances, definitions, persistence := map[], map[], store;
    }

    method CreateFb(id: string, def: Definition, now: int) returns (r: Outcome)
      requires Valid()
      modifies this
      ensures Valid() && persistence == old(persistence)
      ensures r == if id in old(instances) then AlreadyExists(id)
                   else if Instantiate(def.fbType, def.params).None? then UnknownType(def.fbType)
                   else Created
      ensures r != Created ==> instances == old(instances) && definitions == old(definitions)
      ensures r == Created ==>
        && instances == old(instances)[id :=
             RestoreFrom(persistence, id, Instantiate(def.fbType, def.params).value, now)]
        && definitions == old(definitions)[id := def]
    {
      if id in instances {
        return AlreadyExists(id);
      }
      var b := Instantiate(def.fbType, def.params);
      if b.None? {
        return UnknownType(def.fbType);
      }
      var block := b.value;
      if persistence.Some? && id in persistence.value {
        block := Restore(block, persistence.value[id], now);
      }
      instances := instances[id := block];
      definitions := definitions[id := def];
      r := Created;
    }

    method RemoveFb(id: string) returns (was: bool)
      requires Valid()
      modifies this
      ensures Valid() && was == (id in old(instances))
      ensures instances == old(instances) - {id} && definitions == old(definitions) - {id}
      ensures persistence == if old(persistence).Some? then Some(old(persistence).value - {id}) else None
    {
      if persistence.Some? {
        persistence := Some(persistence.value - {id});
      }
      was := id in instances;
      definitions := definitions - {id};
      instances := instances - {id};
    }

    /** Every block executes once, whatever the order. */
    method ExecuteAllBlocks(clock: string -> int)
      modifies this`instances
      ensures instances == ExecuteAll(old(instances), clock)
    {
      var rest := instances.Keys;
      ghost var order: seq<string> := [];
      while rest != {}
        invariant rest <= old(instances).Keys && Orders(order, old(instances).Keys - rest)
        invariant instances == ExecuteInOrder(old(instances), order, clock)
        invariant instances.Keys == old(instances).Keys
      {
        var id :| id in rest;
        rest := rest - {id};
        ExecutedSoFar(old(instances), order, clock);
        instances := instances[id := Execute(instances[id], clock(id))];
        order := order + [id];
        assert order[..|order| - 1] + [id] == order;
      }
      AnyOrderExecutesAll(old(instances), order, clock);
    }

    method SetInput(id: string, name: string, v: Value)
      modifies this`instances
      ensures instances == SetBlockInput(old(instances), id, name, v)
    {
      if id in instances {
        instances := instances[id := FunctionBlocks.SetInput(instances[id], name, v)];
      }
    }

    function GetOutput(id: string, name: string): Option<Value>
      reads this
    {
      OutputOf(instances, id, name)
    }

    /** Rows of blocks that are no longer there stay. */
    method SaveAllStates()
      modifies this`persistence
      ensures persistence == if old(persistence).None? then None
                             else Some(old(persistence).value + SaveAll(instances))
    {
      if persistence.Some? {
        var store, rest := persistence.value, instances.Keys;
        ghost var before, all := store, SaveAll(instances);
        assert before + (all - rest) == before;
        while rest != {}
          invariant rest <= instances.Keys && store == before + (all - rest)
        {
          var id :| id in rest;
          PutOneMore(before, all, rest, id);
          store := store[id := Save(instances[id])];
          rest := rest - {id};
        }
        assert all - rest == all;
        persistence := Some(store);
      }
    }

    method LoadAllStates(clock: string -> int)
      modifies this`instances
      ensures instances == if persistence.None? then old(instances)
                           else LoadAll(old(instances), persistence.value, clock)
    {
      if persistence.Some? {
        var rest := instances.Keys;
        ghost var before, all := instances, LoadAll(instances, persistence.value, clock);
        assert before + (all - rest) == before;
        while rest != {}
          invariant rest <= before.Keys && instances == before + (all - rest)
        {
          var id :| id in rest;
          PutOneMore(before, all, rest, id);
          assert instances[id] == before[id];
          if id in persistence.value {
            instances := instances[id := Restore(instances[id], persistence.value[id], clock(id))];
          } else {
            assert instances[id := all[id]] == instances;
          }
          rest := rest - {id};
        }
        assert before + (all - rest) == all;
      }
    }
  }

  /** What a block is after a restart: saved by `SaveAllStates`, then created again from the same
      definition. */
  lemma CreatedAgain(blocks: Blocks, store: map<string, Fields>, id: string, def: Definition, now: int)
    requires id in blocks && Sound(blocks[id])
    requires Instantiate(def.fbType, def.params).Some?
    requires SameKind(blocks[id], Instantiate(def.fbType, def.params).value)
    ensures RestoreFrom(Some(store + SaveAll(blocks)), id, Instantiate(def.fbType, def.params).value, now)
            == Revived(blocks[id], now)
  {
    RoundTrip(blocks[id], Instantiate(def.fbType, def.params).value, now);
  }
}
