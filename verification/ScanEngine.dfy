/** The engine's own loops for the block phases of a scan (`wire_fb_inputs`, `wire_fb_outputs` and
    phases 2 to 4 of `run_scan_cycle` in `src/scripting/engine.rs`). */
module ScanEngine {
  import opened Wrappers
  import opened Wiring
  import opened FunctionBlocks
  import opened ScriptContext
  import opened ScanCycle
  import opened Synchronous
  import FBRegistry

  lemma NoInputs(blocks: Blocks, defs: Definitions, ctx: Context)
    ensures AllWires(InputTable(blocks, defs), []) && WireInputs(blocks, defs, ctx, []) == blocks
  {
  }

  lemma OneMoreInput(blocks: Blocks, defs: Definitions, ctx: Context, ws: seq<Wire>, w: Wire)
    requires AllWires(InputTable(blocks, defs), ws) && IsWire(InputTable(blocks, defs), w)
    ensures AllWires(InputTable(blocks, defs), ws + [w])
    ensures var before := WireInputs(blocks, defs, ctx, ws);
      IsWire(InputTable(before, defs), w)
      && WireInputs(blocks, defs, ctx, ws + [w]) == WireInput(before, defs, ctx, w)
  {
    SameTables(WireInputs(blocks, defs, ctx, ws), blocks, defs);
    assert (ws + [w])[..|ws|] == ws;
  }

  lemma {:induction false} MoreInputs(blocks: Blocks, defs: Definitions, ctx: Context, ws: seq<Wire>, vs: seq<Wire>)
    requires AllWires(InputTable(blocks, defs), ws) && AllWires(InputTable(blocks, defs), vs)
    ensures AllWires(InputTable(blocks, defs), ws + vs)
    ensures var before := WireInputs(blocks, defs, ctx, ws);
      AllWires(InputTable(before, defs), vs)
      && WireInputs(blocks, defs, ctx, ws + vs) == WireInputs(before, defs, ctx, vs)
    decreases |vs|
  {
    var before := WireInputs(blocks, defs, ctx, ws);
    SameTables(before, blocks, defs);
    if vs == [] {
      assert ws + vs == ws;
    } else {
      var n := |vs| - 1;
      MoreInputs(blocks, defs, ctx, ws, vs[..n]);
      assert ws + vs == (ws + vs[..n]) + [vs[n]];
      OneMoreInput(blocks, defs, ctx, ws + vs[..n], vs[n]);
    }
  }

  lemma OneMoreName(names: seq<string>, done: set<string>, name: string)
    requires Orders(names, done) && name !in done
    ensures Orders(names + [name], done + {name})
  {
  }

  lemma OneMoreWire(id: string, names: seq<string>, name: string)
    ensures WiresOf(Visit(id, names + [name])) == WiresOf(Visit(id, names)) + [Wire(id, name)]
  {
  }

  lemma OneMoreVisit(plan: seq<Visit>, table: Table, rest: set<string>, v: Visit)
    requires rest <= table.Keys && v.id in rest && IsPlan(plan, table - rest) && Orders(v.names, table[v.id])
    ensures IsPlan(plan + [v], table - (rest - {v.id}))
    ensures Flatten(plan + [v]) == Flatten(plan) + WiresOf(v)
  {
    PlanGrows(plan, table - rest, v, table[v.id]);
    assert (table - rest)[v.id := table[v.id]] == table - (rest - {v.id});
    assert (plan + [v])[..|plan|] == plan;
  }

  lemma VisitedWires(table: Table, v: Visit)
    requires v.id in table && Orders(v.names, table[v.id])
    ensures AllWires(table, WiresOf(v))
  {
    forall w | w in WiresOf(v) ensures IsWire(table, w) {
      VisitHas(v, w);
    }
  }

  lemma NoOutputs(blocks: Blocks, defs: Definitions, ctx: Context)
    ensures AllWires(OutputTable(blocks, defs), []) && WireOutputs(blocks, defs, ctx, []) == ctx
  {
  }

  lemma OneMoreOutput(blocks: Blocks, defs: Definitions, ctx: Context, ws: seq<Wire>, w: Wire)
    requires AllWires(OutputTable(blocks, defs), ws) && IsWire(OutputTable(blocks, defs), w)
    ensures AllWires(OutputTable(blocks, defs), ws + [w])
    ensures WireOutputs(blocks, defs, ctx, ws + [w])
            == WireOutput(blocks, defs, WireOutputs(blocks, defs, ctx, ws), w)
  {
    assert (ws + [w])[..|ws|] == ws;
  }

  lemma {:induction false} MoreOutputs(blocks: Blocks, defs: Definitions, ctx: Context, ws: seq<Wire>, vs: seq<Wire>)
    requires AllWires(OutputTable(blocks, defs), ws) && AllWires(OutputTable(blocks, defs), vs)
    ensures AllWires(OutputTable(blocks, defs), ws + vs)
    ensures WireOutputs(blocks, defs, ctx, ws + vs)
            == WireOutputs(blocks, defs, WireOutputs(blocks, defs, ctx, ws), vs)
    decreases |vs|
  {
    if vs == [] {
      assert ws + vs == ws;
    } else {
      var n := |vs| - 1;
      MoreOutputs(blocks, defs, ctx, ws, vs[..n]);
      assert ws + vs == (ws + vs[..n]) + [vs[n]];
      OneMoreOutput(blocks, defs, ctx, ws + vs[..n], vs[n]);
    }
  }

  class Engine {
    const registry: FBRegistry.FBRegistry
    var context: Context

    constructor (r: FBRegistry.FBRegistry)
      ensures registry == r && context == NOTHING
    {
      registry, context := r, NOTHING;
    }

    method WireInputOf(id: string, name: string)
      requires IsWire(InputTable(registry.instances, registry.definitions), Wire(id, name))
      modifies registry`instances
      ensures IsWire(InputTable(old(registry.instances), registry.definitions), Wire(id, name))
      ensures registry.instances
              == WireInput(old(registry.instances), registry.definitions, context, Wire(id, name))
    {
      var source := registry.definitions[id].inputs[name];
      var value := Evaluate(source, registry.instances, context);
      if value.Some? {
        registry.SetInput(id, name, value.value);
      }
    }

    /** The inner loop. */
    method WireInputsOf(id: string) returns (ghost names: seq<string>)
      requires id in registry.instances
      modifies registry`instances
      ensures var table := InputTable(old(registry.instances), registry.definitions);
        Orders(names, table[id]) && AllWires(table, WiresOf(Visit(id, names)))
      ensures registry.instances
              == WireInputs(old(registry.instances), registry.definitions, context, WiresOf(Visit(id, names)))
    {
      names := [];
      ghost var blocks, defs, ctx := registry.instances, registry.definitions, context;
      NoInputs(blocks, defs, ctx);
      if id !in registry.definitions {
        return;
      }
      var rest := registry.definitions[id].inputs.Keys;
      ghost var all := rest;
      while rest != {}
        invariant rest <= all && Orders(names, all - rest)
        invariant AllWires(InputTable(blocks, defs), WiresOf(Visit(id, names)))
        invariant registry.instances == WireInputs(blocks, defs, ctx, WiresOf(Visit(id, names)))
      {
        var name :| name in rest;
        OneMoreInput(blocks, defs, ctx, WiresOf(Visit(id, names)), Wire(id, name));
        WireInputOf(id, name);
        OneMoreWire(id, names, name);
        OneMoreName(names, all - rest, name);
        assert (all - rest) + {name} == all - (rest - {name});
        names := names + [name];
        rest := rest - {name};
      }
      assert all - rest == all;
    }

    /** The outer loop.  The plan is the order in which things came up. */
    method WireFbInputs() returns (ghost plan: seq<Visit>)
      modifies registry`instances
      ensures var table := InputTable(old(registry.instances), registry.definitions);
        IsPlan(plan, table) && AllWires(table, Flatten(plan))
      ensures registry.instances
              == WireInputs(old(registry.instances), registry.definitions, context, Flatten(plan))
    {
      plan := [];
      ghost var blocks, defs, ctx := registry.instances, registry.definitions, context;
      ghost var table := InputTable(blocks, defs);
      NoInputs(blocks, defs, ctx);
      var rest := registry.instances.Keys;
      while rest != {}
        invariant rest <= table.Keys && IsPlan(plan, table - rest)
        invariant AllWires(table, Flatten(plan))
        invariant registry.instances == WireInputs(blocks, defs, ctx, Flatten(plan))
      {
        var id :| id in rest;
        SameTables(blocks, registry.instances, defs);
        ghost var names := WireInputsOf(id);
        VisitedWires(table, Visit(id, names));
        MoreInputs(blocks, defs, ctx, Flatten(plan), WiresOf(Visit(id, names)));
        OneMoreVisit(plan, table, rest, Visit(id, names));
        plan := plan + [Visit(id, names)];
        rest := rest - {id};
      }
      assert table - rest == table;
    }

    method WireOutputOf(id: string, name: string)
      requires IsWire(OutputTable(registry.instances, registry.definitions), Wire(id, name))
      modifies this`context
      ensures context == WireOutput(registry.instances, registry.definitions, old(context), Wire(id, name))
    {
      var value := registry.GetOutput(id, name);
      if value.Some? {
        match registry.definitions[id].outputs[name] {
          case ToVariable(n) => context := SetVariable(context, n, value.value);
          case ToSensor(n) =>
            var reading := AsReading(value.value);
            if reading.Some? {
              context := SetSensor(context, n, reading.value);
            }
          case Elsewhere =>
        }
      }
    }

    method WireOutputsOf(id: string) returns (ghost names: seq<string>)
      requires id in registry.instances
      modifies this`context
      ensures var table := OutputTable(registry.instances, registry.definitions);
        Orders(names, table[id]) && AllWires(table, WiresOf(Visit(id, names)))
      ensures context
              == WireOutputs(registry.instances, registry.definitions, old(context), WiresOf(Visit(id, names)))
    {
      names := [];
      ghost var blocks, defs, ctx := registry.instances, registry.definitions, context;
      NoOutputs(blocks, defs, ctx);
      if id !in registry.definitions {
        return;
      }
      var rest := registry.definitions[id].outputs.Keys;
      ghost var all := rest;
      while rest != {}
        invariant rest <= all && Orders(names, all - rest)
        invariant AllWires(OutputTable(blocks, defs), WiresOf(Visit(id, names)))
        invariant context == WireOutputs(blocks, defs, ctx, WiresOf(Visit(id, names)))
      {
        var name :| name in rest;
        OneMoreOutput(blocks, defs, ctx, WiresOf(Visit(id, names)), Wire(id, name));
        WireOutputOf(id, name);
        OneMoreWire(id, names, name);
        OneMoreName(names, all - rest, name);
        assert (all - rest) + {name} == all - (rest - {name});
        names := names + [name];
        rest := rest - {name};
      }
      assert all - rest == all;
    }

    method WireFbOutputs() returns (ghost plan: seq<Visit>)
      modifies this`context
      ensures var table := OutputTable(registry.instances, registry.definitions);
        IsPlan(plan, table) && AllWires(table, Flatten(plan))
      ensures context == WireOutputs(registry.instances, registry.definitions, old(context), Flatten(plan))
    {
      plan := [];
      ghost var blocks, defs, ctx := registry.instances, registry.definitions, context;
      ghost var table := OutputTable(blocks, defs);
      NoOutputs(blocks, defs, ctx);
      var rest := registry.instances.Keys;
      while rest != {}
        invariant rest <= table.Keys && IsPlan(plan, table - rest)
        invariant AllWires(table, Flatten(plan))
        invariant context == WireOutputs(blocks, defs, ctx, Flatten(plan))
      {
        var id :| id in rest;
        ghost var names := WireOutputsOf(id);
        VisitedWires(table, Visit(id, names));
        MoreOutputs(blocks, defs, ctx, Flatten(plan), WiresOf(Visit(id, names)));
        OneMoreVisit(plan, table, rest, Visit(id, names));
        plan := plan + [Visit(id, names)];
        rest := rest - {id};
      }
      assert table - rest == table;
    }

    ghost function StateNow(): State
      reads this, registry
    {
      State(registry.instances, context)
    }

    /** Phases 2 to 4.  When the wiring agrees, nothing of the order is left in the result. */
    method ScanBlocks(clock: string -> int) returns (ghost o: Plans)
      modifies this`context, registry`instances
      ensures ArePlans(o, old(registry.instances), registry.definitions)
      ensures StateNow() == Scan(old(StateNow()), registry.definitions, clock, o)
      ensures Agreed(old(StateNow()), registry.definitions, clock)
              ==> StateNow() == Sync(old(StateNow()), registry.definitions, clock)
    {
      ghost var s, defs := StateNow(), registry.definitions;
      ghost var inputs := WireFbInputs();
      ghost var executes := SomeOrder(s.blocks.Keys);
      registry.ExecuteAllBlocks(clock);
      SameTables(registry.instances, s.blocks, defs);
      ghost var outputs := WireFbOutputs();
      o := Plans(inputs, executes, outputs);
      AnyOrderExecutesAll(Latched(s, defs, o), executes, clock);
      if Agreed(s, defs, clock) {
        ScanIsSync(s, defs, clock, o);
      }
    }
  }
}
