/** The block phases of the scan cycle (`run_scan_cycle` phases 2 to 4, `wire_fb_inputs` and
    `wire_fb_outputs` in `src/scripting/engine.rs`, `execute_all` in `fb_registry.rs`).  They walk
    through hash maps, whose order is nowhere fixed. */
module ScanCycle {
  import opened Wrappers
  import opened Wiring
  import opened FunctionBlocks
  import opened ScriptContext
  import opened BlockState

  /** What feeds an input.  `Unreadable` is a pin that is no number, a block without an output
      name, or a literal that does not parse. */
  datatype Source =
    | FromSensor(name: string)
    | FromGpio(pin: nat)
    | FromVariable(name: string)
    | FromBlock(id: string, output: string)
    | Literal(value: Value)
    | Unreadable

  datatype Target = ToVariable(name: string) | ToSensor(name: string) | Elsewhere

  datatype Definition = Definition(
    fbType: string, params: Params, inputs: map<string, Source>, outputs: map<string, Target>)

  type Blocks = map<string, Block>
  type Definitions = map<string, Definition>

  // ---- Phase 2: inputs ----

  /** An input field of one block. */
  datatype Pin = Pin(id: string, field: Field)

  function OutputOf(blocks: Blocks, id: string, name: string): Option<Value> {
    if id in blocks then GetOutput(blocks[id], name) else None
  }

  function Evaluate(source: Source, blocks: Blocks, ctx: Context): Option<Value> {
    match source
    case FromSensor(n) => ReadSensor(ctx, n)
    case FromGpio(p) => if p in ctx.gpio then Some(BoolV(ctx.gpio[p])) else None
    case FromVariable(n) => ReadVariable(ctx, n)
    case FromBlock(id, output) => OutputOf(blocks, id, output)
    case Literal(v) => Some(v)
    case Unreadable => None
  }

  function InputTable(blocks: Blocks, defs: Definitions): Table {
    map id | id in blocks :: if id in defs then defs[id].inputs.Keys else {}
  }

  function SetBlockInput(blocks: Blocks, id: string, name: string, v: Value): Blocks {
    if id in blocks then blocks[id := SetInput(blocks[id], name, v)] else blocks
  }

  function WireInput(blocks: Blocks, defs: Definitions, ctx: Context, w: Wire): Blocks
    requires IsWire(InputTable(blocks, defs), w)
  {
    var v := Evaluate(defs[w.id].inputs[w.name], blocks, ctx);
    if v.None? then blocks else SetBlockInput(blocks, w.id, w.name, v.value)
  }

  ghost predicate AllWires(table: Table, ws: seq<Wire>) {
    forall w | w in ws :: IsWire(table, w)
  }

  function WireInputs(blocks: Blocks, defs: Definitions, ctx: Context, ws: seq<Wire>): (r: Blocks)
    requires AllWires(InputTable(blocks, defs), ws)
    ensures r.Keys == blocks.Keys
    decreases |ws|
  {
    if ws == [] then blocks
    else
      var before := WireInputs(blocks, defs, ctx, ws[..|ws| - 1]);
      assert InputTable(before, defs) == InputTable(blocks, defs);
      WireInput(before, defs, ctx, ws[|ws| - 1])
  }

  /** What a wire brings to which field, seen from the blocks as they are before the phase. */
  function Delivery(blocks: Blocks, defs: Definitions, ctx: Context, w: Wire): Option<(Pin, Setting)>
    requires IsWire(InputTable(blocks, defs), w)
  {
    var v := Evaluate(defs[w.id].inputs[w.name], blocks, ctx);
    if v.None? then None
    else
      var d := Deliver(blocks[w.id], w.name, v.value);
      if d.None? then None else Some((Pin(w.id, d.value.0), d.value.1))
  }

  ghost function Deliveries(blocks: Blocks, defs: Definitions, ctx: Context, ws: seq<Wire>)
    : (ds: seq<Option<(Pin, Setting)>>)
    requires AllWires(InputTable(blocks, defs), ws)
    ensures |ds| == |ws| && forall i | 0 <= i < |ws| :: ds[i] == Delivery(blocks, defs, ctx, ws[i])
  {
    seq(|ws|, i requires 0 <= i < |ws| => assert ws[i] in ws; Delivery(blocks, defs, ctx, ws[i]))
  }

  /** The settings for one block. */
  function Row(m: map<Pin, Setting>, id: string): map<Field, Setting> {
    map f: Field | Pin(id, f) in m :: m[Pin(id, f)]
  }

  function LatchAll(blocks: Blocks, m: map<Pin, Setting>): (r: Blocks)
    ensures r.Keys == blocks.Keys
  {
    map id | id in blocks :: Latch(blocks[id], Row(m, id))
  }

  ghost predicate Fitting(blocks: Blocks, m: map<Pin, Setting>) {
    forall p | p in m :: p.id in blocks && Fits(blocks[p.id], p.field, m[p])
  }

  lemma EvaluateSeesOutputs(source: Source, blocks: Blocks, m: map<Pin, Setting>, ctx: Context)
    ensures Evaluate(source, LatchAll(blocks, m), ctx) == Evaluate(source, blocks, ctx)
  {
    if source.FromBlock? && source.id in blocks {
      LatchKeepsOutputs(blocks[source.id], Row(m, source.id));
    }
  }

  lemma DeliveryFitsBlock(blocks: Blocks, defs: Definitions, ctx: Context, w: Wire)
    requires IsWire(InputTable(blocks, defs), w)
    ensures var d := Delivery(blocks, defs, ctx, w);
      d.Some? ==> d.value.0.id == w.id && Fits(blocks[w.id], d.value.0.field, d.value.1)
  {
    var v := Evaluate(defs[w.id].inputs[w.name], blocks, ctx);
    if v.Some? {
      DeliveryFits(blocks[w.id], w.name, v.value);
    }
  }

  lemma RowOneMore(m: map<Pin, Setting>, p: Pin, x: Setting)
    ensures Row(m[p := x], p.id) == Row(m, p.id)[p.field := x]
    ensures forall id | id != p.id :: Row(m[p := x], id) == Row(m, id)
  {
  }

  lemma RowFits(blocks: Blocks, m: map<Pin, Setting>, id: string)
    requires Fitting(blocks, m) && id in blocks
    ensures AllFit(blocks[id], Row(m, id))
  {
    forall f | f in Row(m, id) ensures Fits(blocks[id], f, Row(m, id)[f]) {
      assert Pin(id, f) in m;
    }
  }

  lemma LatchedOneMore(blocks: Blocks, m: map<Pin, Setting>, p: Pin, x: Setting, id: string)
    requires Fitting(blocks, m) && p.id in blocks && Fits(blocks[p.id], p.field, x) && id in blocks
    ensures Latch(blocks[id], Row(m[p := x], id))
            == if id == p.id then Latch(Latch(blocks[id], Row(m, id)), map[p.field := x])
               else Latch(blocks[id], Row(m, id))
  {
    RowOneMore(m, p, x);
    if id == p.id {
      RowFits(blocks, m, id);
      LatchOneMore(blocks[id], Row(m, id), p.field, x);
    } else {
      assert Row(m[p := x], id) == Row(m, id);
    }
  }

  lemma LatchAllOneMore(blocks: Blocks, m: map<Pin, Setting>, p: Pin, x: Setting)
    requires Fitting(blocks, m) && p.id in blocks && Fits(blocks[p.id], p.field, x)
    ensures var done := LatchAll(blocks, m);
      done[p.id := Latch(done[p.id], map[p.field := x])] == LatchAll(blocks, m[p := x])
  {
    var done, all := LatchAll(blocks, m), LatchAll(blocks, m[p := x]);
    var one := done[p.id := Latch(done[p.id], map[p.field := x])];
    forall id | id in blocks ensures one[id] == all[id] {
      LatchedOneMore(blocks, m, p, x, id);
    }
    SameMap(one, all);
  }

  /** One more wire, on top of settings already latched, adds its delivery to them. */
  lemma WireOneMore(blocks: Blocks, defs: Definitions, ctx: Context, m: map<Pin, Setting>, w: Wire)
    requires IsWire(InputTable(blocks, defs), w) && Fitting(blocks, m)
    requires IsWire(InputTable(LatchAll(blocks, m), defs), w)
    ensures var d := Delivery(blocks, defs, ctx, w);
      WireInput(LatchAll(blocks, m), defs, ctx, w)
      == if d.Some? then LatchAll(blocks, m[d.value.0 := d.value.1]) else LatchAll(blocks, m)
  {
    var source := defs[w.id].inputs[w.name];
    EvaluateSeesOutputs(source, blocks, m, ctx);
    var v := Evaluate(source, blocks, ctx);
    if v.Some? {
      LatchKeepsInputs(blocks[w.id], Row(m, w.id), w.name, v.value);
    }
    var d := Delivery(blocks, defs, ctx, w);
    if d.Some? {
      DeliveryFitsBlock(blocks, defs, ctx, w);
      LatchAllOneMore(blocks, m, d.value.0, d.value.1);
    }
  }

  lemma LatchAllNothing(blocks: Blocks)
    ensures LatchAll(blocks, map[]) == blocks
  {
    forall id | id in blocks ensures Latch(blocks[id], Row(map[], id)) == blocks[id] {
      assert Row(map[], id) == map[];
      LatchNothing(blocks[id]);
    }
  }

  lemma {:induction false} DeliveriesFit(blocks: Blocks, defs: Definitions, ctx: Context, ws: seq<Wire>)
    requires AllWires(InputTable(blocks, defs), ws)
    ensures Fitting(blocks, Collect(Deliveries(blocks, defs, ctx, ws)))
  {
    var ds := Deliveries(blocks, defs, ctx, ws);
    var m: map<Pin, Setting> := Collect(ds);
    CollectedWasGiven(ds);
    forall p | p in m ensures p.id in blocks && Fits(blocks[p.id], p.field, m[p]) {
      var i :| 0 <= i < |ds| && ds[i] == Some((p, m[p]));
      assert ws[i] in ws;
      DeliveryFitsBlock(blocks, defs, ctx, ws[i]);
    }
  }

  lemma CollectDeliveries(blocks: Blocks, defs: Definitions, ctx: Context, ws: seq<Wire>)
    requires ws != [] && AllWires(InputTable(blocks, defs), ws)
    ensures var m := Collect(Deliveries(blocks, defs, ctx, ws[..|ws| - 1]));
      var d := Delivery(blocks, defs, ctx, ws[|ws| - 1]);
      Collect(Deliveries(blocks, defs, ctx, ws)) == if d.Some? then m[d.value.0 := d.value.1] else m
  {
    var ds := Deliveries(blocks, defs, ctx, ws);
    assert Deliveries(blocks, defs, ctx, ws[..|ws| - 1]) == ds[..|ws| - 1];
  }

  /** Wiring in any order latches what is left of the deliveries in that order.  No wire sees
      what an earlier one did. */
  lemma {:induction false} WireInputsLatch(blocks: Blocks, defs: Definitions, ctx: Context, ws: seq<Wire>)
    requires AllWires(InputTable(blocks, defs), ws)
    ensures WireInputs(blocks, defs, ctx, ws)
            == LatchAll(blocks, Collect(Deliveries(blocks, defs, ctx, ws)))
    decreases |ws|
  {
    if ws == [] {
      LatchAllNothing(blocks);
    } else {
      var m := Collect(Deliveries(blocks, defs, ctx, ws[..|ws| - 1]));
      WireInputsLatch(blocks, defs, ctx, ws[..|ws| - 1]);
      DeliveriesFit(blocks, defs, ctx, ws[..|ws| - 1]);
      assert InputTable(LatchAll(blocks, m), defs) == InputTable(blocks, defs);
      WireOneMore(blocks, defs, ctx, m, ws[|ws| - 1]);
      CollectDeliveries(blocks, defs, ctx, ws);
    }
  }

  /** All deliveries of the phase. */
  ghost function InputGifts(blocks: Blocks, defs: Definitions, ctx: Context): set<(Pin, Setting)> {
    set id, name | id in blocks && id in defs && name in defs[id].inputs
                   && Delivery(blocks, defs, ctx, Wire(id, name)).Some? ::
      Delivery(blocks, defs, ctx, Wire(id, name)).value
  }

  /** Every field is fed one value at most. */
  ghost predicate InputsAgree(blocks: Blocks, defs: Definitions, ctx: Context) {
    Agree(InputGifts(blocks, defs, ctx))
  }

  lemma PlanGives(blocks: Blocks, defs: Definitions, ctx: Context, p: seq<Visit>)
    requires IsPlan(p, InputTable(blocks, defs))
    ensures AllWires(InputTable(blocks, defs), Flatten(p))
    ensures var ds := Deliveries(blocks, defs, ctx, Flatten(p));
      forall g :: Some(g) in ds <==> g in InputGifts(blocks, defs, ctx)
  {
    PlanCovers(p, InputTable(blocks, defs));
    var ws := Flatten(p);
    var ds := Deliveries(blocks, defs, ctx, ws);
    forall g | g in InputGifts(blocks, defs, ctx) ensures Some(g) in ds {
      var id, name :| id in blocks && id in defs && name in defs[id].inputs
                      && Delivery(blocks, defs, ctx, Wire(id, name)) == Some(g);
      assert IsWire(InputTable(blocks, defs), Wire(id, name));
      var i :| 0 <= i < |ws| && ws[i] == Wire(id, name);
      assert ds[i] == Some(g);
    }
    forall g | Some(g) in ds ensures g in InputGifts(blocks, defs, ctx) {
      var i :| 0 <= i < |ds| && ds[i] == Some(g);
      var w := ws[i];
      assert w in ws;
      assert w == Wire(w.id, w.name);
    }
  }

  /** The input phase at once: every field takes what it is fed, and sources that are blocks give
      the outputs they have before the phase. */
  ghost function SyncInputs(blocks: Blocks, defs: Definitions, ctx: Context): Blocks {
    LatchAll(blocks, Joined(InputGifts(blocks, defs, ctx)))
  }

  lemma AgreedInputsAnyOrder(blocks: Blocks, defs: Definitions, ctx: Context, p: seq<Visit>)
    requires IsPlan(p, InputTable(blocks, defs)) && InputsAgree(blocks, defs, ctx)
    ensures AllWires(InputTable(blocks, defs), Flatten(p))
    ensures WireInputs(blocks, defs, ctx, Flatten(p)) == SyncInputs(blocks, defs, ctx)
  {
    PlanGives(blocks, defs, ctx, p);
    CollectIsJoined(Deliveries(blocks, defs, ctx, Flatten(p)), InputGifts(blocks, defs, ctx));
    WireInputsLatch(blocks, defs, ctx, Flatten(p));
  }

  /** Each delivery is what its field holds at the end, in some order. */
  lemma DeliveryCanWin(blocks: Blocks, defs: Definitions, ctx: Context, w: Wire) returns (p: seq<Visit>)
    requires IsWire(InputTable(blocks, defs), w) && Delivery(blocks, defs, ctx, w).Some?
    ensures IsPlan(p, InputTable(blocks, defs)) && AllWires(InputTable(blocks, defs), Flatten(p))
    ensures var (pin, x) := Delivery(blocks, defs, ctx, w).value;
      pin.id in blocks && Read(WireInputs(blocks, defs, ctx, Flatten(p))[pin.id], pin.field) == Some(x)
  {
    p := PlanEndingWith(InputTable(blocks, defs), w);
    PlanCovers(p, InputTable(blocks, defs));
    var ws := Flatten(p);
    var (pin, x) := Delivery(blocks, defs, ctx, w).value;
    var m := Collect(Deliveries(blocks, defs, ctx, ws));
    CollectDeliveries(blocks, defs, ctx, ws);
    DeliveriesFit(blocks, defs, ctx, ws);
    WireInputsLatch(blocks, defs, ctx, ws);
    RowFits(blocks, m, pin.id);
    LatchedReads(blocks[pin.id], Row(m, pin.id), pin.field);
  }

  // ---- Phase 3: execution.  Each block looks at the clock itself. ----

  function ExecuteOne(blocks: Blocks, id: string, clock: string -> int): Blocks {
    if id in blocks then blocks[id := Execute(blocks[id], clock(id))] else blocks
  }

  function ExecuteInOrder(blocks: Blocks, order: seq<string>, clock: string -> int): Blocks
    decreases |order|
  {
    if order == [] then blocks
    else ExecuteOne(ExecuteInOrder(blocks, order[..|order| - 1], clock), order[|order| - 1], clock)
  }

  /** All blocks at once. */
  function ExecuteAll(blocks: Blocks, clock: string -> int): (r: Blocks)
    ensures r.Keys == blocks.Keys
  {
    map id | id in blocks :: Execute(blocks[id], clock(id))
  }

  lemma {:induction false} ExecutedSoFar(blocks: Blocks, order: seq<string>, clock: string -> int)
    requires Distinct(order)
    ensures var r := ExecuteInOrder(blocks, order, clock);
      && r.Keys == blocks.Keys
      && forall id | id in blocks :: r[id] == if id in order then Execute(blocks[id], clock(id)) else blocks[id]
    decreases |order|
  {
    if order != [] {
      var earlier, last := order[..|order| - 1], order[|order| - 1];
      assert order == earlier + [last] && last !in earlier;
      ExecutedSoFar(blocks, earlier, clock);
    }
  }

  lemma AnyOrderExecutesAll(blocks: Blocks, order: seq<string>, clock: string -> int)
    requires Orders(order, blocks.Keys)
    ensures ExecuteInOrder(blocks, order, clock) == ExecuteAll(blocks, clock)
  {
    ExecutedSoFar(blocks, order, clock);
    SameMap(ExecuteInOrder(blocks, order, clock), ExecuteAll(blocks, clock));
  }

  // ---- Phase 4: outputs ----

  /** A place in the context that an output goes to. */
  datatype Slot = VariableSlot(name: string) | SensorSlot(name: string)

  function OutputTable(blocks: Blocks, defs: Definitions): Table {
    map id | id in blocks :: if id in defs then defs[id].outputs.Keys else {}
  }

  /** Sensors are numbers: a truth value becomes one or zero. */
  function AsReading(v: Value): Option<real> {
    if v.BoolV? then Some(if v.b then 1.0 else 0.0) else AsReal(v)
  }

  function WireOutput(blocks: Blocks, defs: Definitions, ctx: Context, w: Wire): Context
    requires IsWire(OutputTable(blocks, defs), w)
  {
    var v := OutputOf(blocks, w.id, w.name);
    if v.None? then ctx
    else match defs[w.id].outputs[w.name]
      case ToVariable(n) => SetVariable(ctx, n, v.value)
      case ToSensor(n) =>
        var r := AsReading(v.value);
        if r.None? then ctx else SetSensor(ctx, n, r.value)
      case Elsewhere => ctx
  }

  function WireOutputs(blocks: Blocks, defs: Definitions, ctx: Context, ws: seq<Wire>): Context
    requires AllWires(OutputTable(blocks, defs), ws)
    decreases |ws|
  {
    if ws == [] then ctx
    else WireOutput(blocks, defs, WireOutputs(blocks, defs, ctx, ws[..|ws| - 1]), ws[|ws| - 1])
  }

  /** What a wire brings to which place. */
  function Emission(blocks: Blocks, defs: Definitions, w: Wire): Option<(Slot, Value)>
    requires IsWire(OutputTable(blocks, defs), w)
  {
    var v := OutputOf(blocks, w.id, w.name);
    if v.None? then None
    else match defs[w.id].outputs[w.name]
      case ToVariable(n) => Some((VariableSlot(n), v.value))
      case ToSensor(n) =>
        var r := AsReading(v.value);
        if r.None? then None else Some((SensorSlot(n), RealV(r.value)))
      case Elsewhere => None
  }

  ghost function Emissions(blocks: Blocks, defs: Definitions, ws: seq<Wire>): (es: seq<Option<(Slot, Value)>>)
    requires AllWires(OutputTable(blocks, defs), ws)
    ensures |es| == |ws| && forall i | 0 <= i < |ws| :: es[i] == Emission(blocks, defs, ws[i])
  {
    seq(|ws|, i requires 0 <= i < |ws| => assert ws[i] in ws; Emission(blocks, defs, ws[i]))
  }

  /** What a place in the context holds. */
  function At(ctx: Context, slot: Slot): Option<Value> {
    match slot
    case VariableSlot(n) => ReadVariable(ctx, n)
    case SensorSlot(n) => ReadSensor(ctx, n)
  }

  lemma SameContext(a: Context, b: Context)
    requires a.gpio == b.gpio && a.ambient == b.ambient && forall slot :: At(a, slot) == At(b, slot)
    ensures a == b
  {
    forall n ensures n in a.variables <==> n in b.variables
             ensures n in a.variables ==> a.variables[n] == b.variables[n] {
      assert At(a, VariableSlot(n)) == At(b, VariableSlot(n));
    }
    forall n ensures n in a.sensors <==> n in b.sensors
             ensures n in a.sensors ==> a.sensors[n] == b.sensors[n] {
      assert At(a, SensorSlot(n)) == At(b, SensorSlot(n));
    }
    assert a.variables == b.variables && a.sensors == b.sensors;
  }

  /** Every place written holds what came to it last, the others what they held. */
  lemma {:induction false} WireOutputsStore(blocks: Blocks, defs: Definitions, ctx: Context, ws: seq<Wire>)
    requires AllWires(OutputTable(blocks, defs), ws)
    ensures var m, r := Collect(Emissions(blocks, defs, ws)), WireOutputs(blocks, defs, ctx, ws);
      && r.gpio == ctx.gpio && r.ambient == ctx.ambient
      && forall slot :: At(r, slot) == if slot in m then Some(m[slot]) else At(ctx, slot)
    decreases |ws|
  {
    if ws != [] {
      var n := |ws| - 1;
      WireOutputsStore(blocks, defs, ctx, ws[..n]);
      CollectEmissions(blocks, defs, ws);
      WireOneOutput(blocks, defs, WireOutputs(blocks, defs, ctx, ws[..n]), ws[n]);
    }
  }

  lemma WireOneOutput(blocks: Blocks, defs: Definitions, ctx: Context, w: Wire)
    requires IsWire(OutputTable(blocks, defs), w)
    ensures var e, r := Emission(blocks, defs, w), WireOutput(blocks, defs, ctx, w);
      && r.gpio == ctx.gpio && r.ambient == ctx.ambient
      && forall slot :: At(r, slot) == if e.Some? && e.value.0 == slot then Some(e.value.1) else At(ctx, slot)
  {
  }

  lemma CollectEmissions(blocks: Blocks, defs: Definitions, ws: seq<Wire>)
    requires ws != [] && AllWires(OutputTable(blocks, defs), ws)
    ensures var m := Collect(Emissions(blocks, defs, ws[..|ws| - 1]));
      var e := Emission(blocks, defs, ws[|ws| - 1]);
      Collect(Emissions(blocks, defs, ws)) == if e.Some? then m[e.value.0 := e.value.1] else m
  {
    var es := Emissions(blocks, defs, ws);
    assert Emissions(blocks, defs, ws[..|ws| - 1]) == es[..|ws| - 1];
  }

  ghost function OutputGifts(blocks: Blocks, defs: Definitions): set<(Slot, Value)> {
    set id, name | id in blocks && id in defs && name in defs[id].outputs
                   && Emission(blocks, defs, Wire(id, name)).Some? ::
      Emission(blocks, defs, Wire(id, name)).value
  }

  /** Every place in the context is sent one value at most. */
  ghost predicate OutputsAgree(blocks: Blocks, defs: Definitions) {
    Agree(OutputGifts(blocks, defs))
  }

  lemma PlanEmits(blocks: Blocks, defs: Definitions, p: seq<Visit>)
    requires IsPlan(p, OutputTable(blocks, defs))
    ensures AllWires(OutputTable(blocks, defs), Flatten(p))
    ensures var es := Emissions(blocks, defs, Flatten(p));
      forall g :: Some(g) in es <==> g in OutputGifts(blocks, defs)
  {
    PlanCovers(p, OutputTable(blocks, defs));
    var ws := Flatten(p);
    var es := Emissions(blocks, defs, ws);
    forall g | g in OutputGifts(blocks, defs) ensures Some(g) in es {
      var id, name :| id in blocks && id in defs && name in defs[id].outputs
                      && Emission(blocks, defs, Wire(id, name)) == Some(g);
      assert IsWire(OutputTable(blocks, defs), Wire(id, name));
      var i :| 0 <= i < |ws| && ws[i] == Wire(id, name);
      assert es[i] == Some(g);
    }
    forall g | Some(g) in es ensures g in OutputGifts(blocks, defs) {
      var i :| 0 <= i < |es| && es[i] == Some(g);
      var w := ws[i];
      assert w in ws;
      assert w == Wire(w.id, w.name);
    }
  }

  function Store(ctx: Context, m: map<Slot, Value>): Context {
    var variables := set slot: Slot | slot in m && slot.VariableSlot? :: slot.name;
    var sensors := set slot: Slot | slot in m && slot.SensorSlot? && m[slot].RealV? :: slot.name;
    ctx.(variables := map n | n in ctx.variables.Keys + variables ::
                        if VariableSlot(n) in m then m[VariableSlot(n)] else ctx.variables[n],
         sensors := map n | n in ctx.sensors.Keys + sensors ::
                      if n in sensors then m[SensorSlot(n)].r else ctx.sensors[n])
  }

  lemma StoreHolds(ctx: Context, m: map<Slot, Value>, slot: Slot)
    requires slot in m && slot.SensorSlot? ==> m[slot].RealV?
    ensures At(Store(ctx, m), slot) == if slot in m then Some(m[slot]) else At(ctx, slot)
  {
  }

  /** The output phase at once. */
  ghost function SyncOutputs(blocks: Blocks, defs: Definitions, ctx: Context): Context {
    Store(ctx, Joined(OutputGifts(blocks, defs)))
  }

  lemma EmissionFitsPlace(blocks: Blocks, defs: Definitions, slot: Slot, v: Value)
    requires (slot, v) in OutputGifts(blocks, defs)
    ensures slot.SensorSlot? ==> v.RealV?
  {
  }

  lemma SyncOutputsStore(blocks: Blocks, defs: Definitions, ctx: Context)
    ensures var m, r := Joined(OutputGifts(blocks, defs)), SyncOutputs(blocks, defs, ctx);
      && r.gpio == ctx.gpio && r.ambient == ctx.ambient
      && forall slot :: At(r, slot) == if slot in m then Some(m[slot]) else At(ctx, slot)
  {
    var m := Joined(OutputGifts(blocks, defs));
    forall slot ensures At(Store(ctx, m), slot) == if slot in m then Some(m[slot]) else At(ctx, slot) {
      if slot in m {
        EmissionFitsPlace(blocks, defs, slot, m[slot]);
      }
      StoreHolds(ctx, m, slot);
    }
  }

  lemma AgreedOutputsAnyOrder(blocks: Blocks, defs: Definitions, ctx: Context, p: seq<Visit>)
    requires IsPlan(p, OutputTable(blocks, defs)) && OutputsAgree(blocks, defs)
    ensures AllWires(OutputTable(blocks, defs), Flatten(p))
    ensures WireOutputs(blocks, defs, ctx, Flatten(p)) == SyncOutputs(blocks, defs, ctx)
  {
    PlanEmits(blocks, defs, p);
    CollectIsJoined(Emissions(blocks, defs, Flatten(p)), OutputGifts(blocks, defs));
    WireOutputsStore(blocks, defs, ctx, Flatten(p));
    SyncOutputsStore(blocks, defs, ctx);
    SameContext(WireOutputs(blocks, defs, ctx, Flatten(p)), SyncOutputs(blocks, defs, ctx));
  }

  /** Each emission is what its place holds at the end, in some order. */
  lemma EmissionCanWin(blocks: Blocks, defs: Definitions, ctx: Context, w: Wire) returns (p: seq<Visit>)
    requires IsWire(OutputTable(blocks, defs), w) && Emission(blocks, defs, w).Some?
    ensures IsPlan(p, OutputTable(blocks, defs)) && AllWires(OutputTable(blocks, defs), Flatten(p))
    ensures var (slot, v) := Emission(blocks, defs, w).value;
      At(WireOutputs(blocks, defs, ctx, Flatten(p)), slot) == Some(v)
  {
    p := PlanEndingWith(OutputTable(blocks, defs), w);
    PlanCovers(p, OutputTable(blocks, defs));
    CollectEmissions(blocks, defs, Flatten(p));
    WireOutputsStore(blocks, defs, ctx, Flatten(p));
  }
}
