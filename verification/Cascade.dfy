/** Blocks wired to blocks and to the context, over runs of scans: what each block is given, and what
    its outputs bring to the inputs and places they are wired to (`src/scripting/engine.rs`). */
module Cascade {
  import opened Wrappers
  import opened Wiring
  import opened Counters
  import opened FunctionBlocks
  import opened ScriptContext
  import opened BlockState
  import opened BlockHistories
  import opened ScanCycle
  import opened Synchronous

  // ---- A scan is one turn of every block ----

  /** The values that the wires of one block bring, in their order, all read before the scan. */
  function Brought(s: State, defs: Definitions, ws: seq<Wire>, id: string): seq<(string, Value)>
    requires AllWires(InputTable(s.blocks, defs), ws)
    decreases |ws|
  {
    if ws == [] then []
    else
      assert ws[|ws| - 1] in ws;
      Brought(s, defs, ws[..|ws| - 1], id) + BroughtBy(s, defs, ws[|ws| - 1], id)
  }

  function BroughtBy(s: State, defs: Definitions, w: Wire, id: string): seq<(string, Value)>
    requires IsWire(InputTable(s.blocks, defs), w)
  {
    var v := Evaluate(defs[w.id].inputs[w.name], s.blocks, s.context);
    if w.id == id && v.Some? then [(w.name, v.value)] else []
  }

  ghost function TurnIn(s: State, defs: Definitions, clock: string -> int, o: Plans, id: string): Turn
    requires ArePlans(o, s.blocks, defs)
  {
    PlanCovers(o.inputs, InputTable(s.blocks, defs));
    Turn(Brought(s, defs, Flatten(o.inputs), id), clock(id))
  }

  lemma WireBrings(s: State, defs: Definitions, before: Blocks, w: Wire, id: string)
    requires IsWire(InputTable(s.blocks, defs), w) && IsWire(InputTable(before, defs), w) && id in before
    requires var source := defs[w.id].inputs[w.name];
      Evaluate(source, before, s.context) == Evaluate(source, s.blocks, s.context)
    ensures var after := WireInput(before, defs, s.context, w);
      id in after && after[id] == Give(before[id], BroughtBy(s, defs, w, id))
  {
    var given := BroughtBy(s, defs, w, id);
    if given != [] {
      GiveOne(before[id], w.name, given[0].1);
    }
  }

  lemma GiveOne(b: Block, name: string, v: Value)
    ensures Give(b, [(name, v)]) == SetInput(b, name, v)
  {
    assert [(name, v)][..0] == [];
  }

  lemma GiveMore(b: Block, given: seq<(string, Value)>, more: seq<(string, Value)>)
    requires |more| <= 1
    ensures Give(b, given + more) == Give(Give(b, given), more)
  {
    if more == [] {
      assert given + more == given;
    } else {
      assert (given + more)[..|given|] == given && more[..0] == [];
    }
  }

  lemma {:induction false} WiresBring(s: State, defs: Definitions, ws: seq<Wire>, id: string)
    requires AllWires(InputTable(s.blocks, defs), ws) && id in s.blocks
    ensures WireInputs(s.blocks, defs, s.context, ws)[id] == Give(s.blocks[id], Brought(s, defs, ws, id))
    decreases |ws|
  {
    if ws != [] {
      var earlier, w := ws[..|ws| - 1], ws[|ws| - 1];
      assert w in ws;
      WiresBring(s, defs, earlier, id);
      WireInputsLatch(s.blocks, defs, s.context, earlier);
      var m := Collect(Deliveries(s.blocks, defs, s.context, earlier));
      assert InputTable(LatchAll(s.blocks, m), defs) == InputTable(s.blocks, defs);
      EvaluateSeesOutputs(defs[w.id].inputs[w.name], s.blocks, m, s.context);
      WireBrings(s, defs, LatchAll(s.blocks, m), w, id);
      GiveMore(s.blocks[id], Brought(s, defs, earlier, id), BroughtBy(s, defs, w, id));
    }
  }

  /** A scan, in whatever orders, executes each block once on what its wires bring. */
  lemma ScanIsTurn(s: State, defs: Definitions, clock: string -> int, o: Plans, id: string)
    requires ArePlans(o, s.blocks, defs) && id in s.blocks
    ensures var turn := TurnIn(s, defs, clock, o, id);
      Scan(s, defs, clock, o).blocks[id] == Execute(Give(s.blocks[id], turn.given), turn.now)
  {
    PlanCovers(o.inputs, InputTable(s.blocks, defs));
    WiresBring(s, defs, Flatten(o.inputs), id);
    AnyOrderExecutesAll(Latched(s, defs, o), o.executes, clock);
  }

  /** The turns of one block in a run of scans. */
  ghost function TurnsOf(s: State, defs: Definitions, ticks: seq<Tick>, id: string): (turns: seq<Turn>)
    requires AllPlanned(s, defs, ticks)
    ensures |turns| == |ticks|
    decreases |ticks|
  {
    if ticks == [] then []
    else
      var earlier, t := ticks[..|ticks| - 1], ticks[|ticks| - 1];
      var before := Refresh(Run(s, defs, earlier), t.readings);
      SameTables(before.blocks, s.blocks, defs);
      TurnsOf(s, defs, earlier, id) + [TurnIn(before, defs, t.clock, t.plans, id)]
  }

  /** After any run each block is what its own turns make of it. */
  lemma {:induction false} RunIsTurns(s: State, defs: Definitions, ticks: seq<Tick>, id: string)
    requires AllPlanned(s, defs, ticks) && id in s.blocks
    ensures Run(s, defs, ticks).blocks[id] == After(s.blocks[id], TurnsOf(s, defs, ticks, id))
    decreases |ticks|
  {
    if ticks != [] {
      var earlier, t := ticks[..|ticks| - 1], ticks[|ticks| - 1];
      RunIsTurns(s, defs, earlier, id);
      var before := Refresh(Run(s, defs, earlier), t.readings);
      SameTables(before.blocks, s.blocks, defs);
      ScanIsTurn(before, defs, t.clock, t.plans, id);
      var turns := TurnsOf(s, defs, ticks, id);
      assert turns[..|turns| - 1] == TurnsOf(s, defs, earlier, id);
    }
  }

  // ---- From outputs to inputs ----

  /** What the input with this name holds, if it takes truth values. */
  function TruthAt(b: Block, name: string): Option<bool> {
    match b
    case Ton(s) => if name in IN then Some(s.input) else None
    case Tof(s) => if name in IN then Some(s.input) else None
    case Tp(s) => if name in IN then Some(s.input) else None
    case Ctu(s) => if name in CU then Some(s.cu) else if name in R then Some(s.reset) else None
    case Ctd(s) => if name in CD then Some(s.cd) else if name in LD then Some(s.load) else None
    case Ctud(s) =>
      if name in CU then Some(s.cu) else if name in CD then Some(s.cd)
      else if name in R then Some(s.reset) else if name in LD then Some(s.load) else None
    case RTrig(s) => if name in CLK then Some(s.clk) else None
    case FTrig(s) => if name in CLK then Some(s.clk) else None
  }

  /** What the preset with this name holds. */
  function PresetAt(b: Block, name: string): Option<int> {
    match b
    case Ton(s) => if name in PT then Some(s.pt) else None
    case Tof(s) => if name in PT then Some(s.pt) else None
    case Tp(s) => if name in PT then Some(s.pt) else None
    case Ctu(s) => if name in PV then Some(s.pv) else None
    case Ctd(s) => if name in PV then Some(s.pv) else None
    case Ctud(s) => if name in PV then Some(s.pv) else None
    case _ => None
  }

  /** A source reads this value, before the scan. */
  ghost predicate Says(source: Source, s: State, v: Value) {
    match source
    case FromSensor(n) => n in s.context.sensors && v == RealV(s.context.sensors[n])
    case FromGpio(p) => p in s.context.gpio && v == BoolV(s.context.gpio[p])
    case FromVariable(n) => n in s.context.variables && v == s.context.variables[n]
    case FromBlock(id, output) => id in s.blocks && GetOutput(s.blocks[id], output) == Some(v)
    case Literal(w) => v == w
    case Unreadable => false
  }

  lemma TruthIsRead(b: Block, name: string)
    requires TruthAt(b, name).Some?
    ensures FieldOf(b, name).Some? && Read(b, FieldOf(b, name).value) == Some(SetBool(TruthAt(b, name).value))
    ensures forall v: bool :: Deliver(b, name, BoolV(v)) == Some((FieldOf(b, name).value, SetBool(v)))
  {
    NamesDiffer();
  }

  lemma SayingEvaluates(source: Source, s: State, v: Value)
    ensures Says(source, s, v) <==> Evaluate(source, s.blocks, s.context) == Some(v)
  {
  }

  /** Presets of timers are unsigned, those of counters signed. */
  predicate PresetTakes(b: Block, v: Value) {
    v.IntV? && if IsCounter(b) then -I64_LIMIT <= v.i < I64_LIMIT else 0 <= v.i < U64_LIMIT
  }

  lemma PresetIsRead(b: Block, name: string, v: Value)
    requires PresetAt(b, name).Some? && PresetTakes(b, v)
    ensures Deliver(b, name, v) == Some((Preset, if IsCounter(b) then SetInt(ToI32(v.i)) else SetNat(v.i)))
    ensures Read(b, Preset) == Some(if IsCounter(b) then SetInt(PresetAt(b, name).value)
                                    else SetNat(PresetAt(b, name).value))
  {
    NamesDiffer();
    TimerNamesDiffer();
  }

  lemma KindsAlike(a: Block, b: Block, name: string)
    requires SameKind(a, b)
    ensures FieldOf(a, name) == FieldOf(b, name) && (IsCounter(a) <==> IsCounter(b))
    ensures TruthAt(a, name).Some? <==> TruthAt(b, name).Some?
    ensures PresetAt(a, name).Some? <==> PresetAt(b, name).Some?
  {
  }

  lemma KindStays(s: State, defs: Definitions, clock: string -> int, id: string)
    requires id in s.blocks
    ensures SameKind(s.blocks[id], SyncBlocks(s, defs, clock)[id])
  {
    var latched := SyncInputs(s.blocks, defs, s.context)[id];
    assert SameKind(s.blocks[id], latched) && SameKind(latched, Execute(latched, clock(id)));
  }

  /** The input named `name` of block `id` is wired to a source that reads `v`. */
  ghost predicate WiredTo(s: State, defs: Definitions, id: string, name: string, v: Value) {
    id in s.blocks && id in defs && name in defs[id].inputs && Says(defs[id].inputs[name], s, v)
  }

  lemma WiredFeeds(s: State, defs: Definitions, id: string, name: string, v: Value, f: Field, x: Setting)
    requires WiredTo(s, defs, id, name, v) && Deliver(s.blocks[id], name, v) == Some((f, x))
    ensures Feeds(s, defs, name, Pin(id, f), x)
  {
    SayingEvaluates(defs[id].inputs[name], s, v);
  }

  lemma TruthArrives(s: State, defs: Definitions, clock: string -> int, id: string, name: string, v: bool)
    requires InputsAgree(s.blocks, defs, s.context) && WiredTo(s, defs, id, name, BoolV(v))
    requires TruthAt(SyncBlocks(s, defs, clock)[id], name).Some?
    ensures TruthAt(SyncBlocks(s, defs, clock)[id], name) == Some(v)
  {
    var before, after := s.blocks[id], SyncBlocks(s, defs, clock)[id];
    KindStays(s, defs, clock, id);
    KindsAlike(before, after, name);
    TruthIsRead(before, name);
    TruthIsRead(after, name);
    var f := FieldOf(before, name).value;
    WiredFeeds(s, defs, id, name, BoolV(v), f, SetBool(v));
    EveryInputTakesItsSource(s, defs, clock, Pin(id, f));
  }

  lemma PresetArrives(s: State, defs: Definitions, clock: string -> int, id: string, name: string, v: Value)
    requires InputsAgree(s.blocks, defs, s.context) && WiredTo(s, defs, id, name, v)
    requires var b := SyncBlocks(s, defs, clock)[id]; PresetAt(b, name).Some? && PresetTakes(b, v)
    ensures var b := SyncBlocks(s, defs, clock)[id];
      PresetAt(b, name) == Some(if IsCounter(b) then ToI32(v.i) else v.i)
  {
    var before, after := s.blocks[id], SyncBlocks(s, defs, clock)[id];
    KindStays(s, defs, clock, id);
    KindsAlike(before, after, name);
    PresetIsRead(before, name, v);
    PresetIsRead(after, name, v);
    var x := if IsCounter(before) then SetInt(ToI32(v.i)) else SetNat(v.i);
    WiredFeeds(s, defs, id, name, v, Preset, x);
    EveryInputTakesItsSource(s, defs, clock, Pin(id, Preset));
  }

  /** After a scan every input that is wired holds what its source read before the scan: a truth
      value as it is, a preset too, cut to 32 bits in a counter. */
  lemma InputTakesItsSource(s: State, defs: Definitions, clock: string -> int, o: Plans, id: string, name: string,
                            v: Value)
    requires ArePlans(o, s.blocks, defs) && InputsAgree(s.blocks, defs, s.context) && WiredTo(s, defs, id, name, v)
    ensures var b := Scan(s, defs, clock, o).blocks[id];
      && (v.BoolV? && TruthAt(b, name).Some? ==> TruthAt(b, name) == Some(v.b))
      && (PresetTakes(b, v) && PresetAt(b, name).Some? ==>
            PresetAt(b, name) == Some(if IsCounter(b) then ToI32(v.i) else v.i))
  {
    AgreedBlocks(s, defs, clock, o);
    var b := SyncBlocks(s, defs, clock)[id];
    if v.BoolV? && TruthAt(b, name).Some? {
      TruthArrives(s, defs, clock, id, name, v.b);
    }
    if PresetTakes(b, v) && PresetAt(b, name).Some? {
      PresetArrives(s, defs, clock, id, name, v);
    }
  }

  // ---- From outputs to the context ----

  /** What a sensor makes of a value. */
  function AsNumber(v: Value): Option<real> {
    match v
    case IntV(i) => Some(i as real)
    case RealV(r) => Some(r)
    case BoolV(b) => Some(if b then 1.0 else 0.0)
    case _ => None
  }

  lemma EmissionArrives(done: Blocks, defs: Definitions, ctx: Context, w: Wire)
    requires IsWire(OutputTable(done, defs), w) && OutputsAgree(done, defs)
    ensures var e := Emission(done, defs, w);
      e.Some? ==> At(SyncOutputs(done, defs, ctx), e.value.0) == Some(e.value.1)
  {
    SyncOutputsStore(done, defs, ctx);
    var e, gifts := Emission(done, defs, w), OutputGifts(done, defs);
    if e.Some? {
      assert w == Wire(w.id, w.name);
      assert e.value in gifts;
      assert (e.value.0, Joined(gifts)[e.value.0]) in gifts;
    }
  }

  /** What a place that takes `v` holds. */
  ghost predicate Holds(ctx: Context, target: Target, v: Value) {
    match target
    case ToVariable(n) => n in ctx.variables && ctx.variables[n] == v
    case ToSensor(n) => AsNumber(v).Some? ==> n in ctx.sensors && ctx.sensors[n] == AsNumber(v).value
    case Elsewhere => true
  }

  lemma EmittedHolds(done: Blocks, defs: Definitions, ctx: Context, w: Wire, v: Value)
    requires IsWire(OutputTable(done, defs), w) && OutputOf(done, w.id, w.name) == Some(v)
    requires var e := Emission(done, defs, w); e.Some? ==> At(ctx, e.value.0) == Some(e.value.1)
    ensures Holds(ctx, defs[w.id].outputs[w.name], v)
  {
  }

  /** After an agreed scan a variable that an output is wired to holds the output as it is after
      the block was executed, and a sensor the number it makes. */
  lemma OutputReachesItsPlace(s: State, defs: Definitions, clock: string -> int, o: Plans, id: string, name: string,
                              v: Value)
    requires ArePlans(o, s.blocks, defs) && Agreed(s, defs, clock)
    requires id in s.blocks && id in defs && name in defs[id].outputs
    requires GetOutput(Scan(s, defs, clock, o).blocks[id], name) == Some(v)
    ensures Holds(Scan(s, defs, clock, o).context, defs[id].outputs[name], v)
  {
    ScanIsSync(s, defs, clock, o);
    var done := SyncBlocks(s, defs, clock);
    SameTables(done, s.blocks, defs);
    EmissionArrives(done, defs, s.context, Wire(id, name));
    EmittedHolds(done, defs, SyncOutputs(done, defs, s.context), Wire(id, name), v);
  }

  // ---- Over whole runs ----

  /** In a run from new blocks, the input of one block that is wired to an output of another holds
      after each scan what that output shows after the other's turns up to the scan before. */
  lemma ShownReachesInput(s: State, defs: Definitions, ticks: seq<Tick>, x: string, t: string, params: Params,
                          out: string, id: string, name: string)
    requires AllPlanned(s, defs, ticks) && ticks != []
    requires x in s.blocks && t in TYPES && s.blocks[x] == Made(t, params)
    requires id in s.blocks && id in defs && name in defs[id].inputs && defs[id].inputs[name] == FromBlock(x, out)
    requires var n := |ticks| - 1;
      && Usual(t, TurnsOf(s, defs, ticks[..n], x))
      && var before := Refresh(Run(s, defs, ticks[..n]), ticks[n].readings);
         InputsAgree(before.blocks, defs, before.context)
    ensures var b := Run(s, defs, ticks).blocks[id];
      var v := Shows(t, params, TurnsOf(s, defs, ticks[..|ticks| - 1], x), out);
      && (v.Some? && v.value.BoolV? && TruthAt(b, name).Some? ==> TruthAt(b, name) == Some(v.value.b))
      && (v.Some? && PresetTakes(b, v.value) && PresetAt(b, name).Some? ==>
            PresetAt(b, name) == Some(if IsCounter(b) then ToI32(v.value.i) else v.value.i))
  {
    var n := |ticks| - 1;
    var turns := TurnsOf(s, defs, ticks[..n], x);
    var before := Refresh(Run(s, defs, ticks[..n]), ticks[n].readings);
    SameTables(before.blocks, s.blocks, defs);
    RunIsTurns(s, defs, ticks[..n], x);
    MadeShows(t, params, turns, out);
    var v := Shows(t, params, turns, out);
    if v.Some? {
      InputTakesItsSource(before, defs, ticks[n].clock, ticks[n].plans, id, name, v.value);
    }
  }

  /** A variable or a sensor that is wired to an output holds after each scan what that output shows
      after the block's turns, that scan's included. */
  lemma ShownReachesContext(s: State, defs: Definitions, ticks: seq<Tick>, x: string, t: string, params: Params,
                            out: string)
    requires AllPlanned(s, defs, ticks) && ticks != []
    requires x in s.blocks && t in TYPES && s.blocks[x] == Made(t, params) && Usual(t, TurnsOf(s, defs, ticks, x))
    requires x in defs && out in defs[x].outputs
    requires var n := |ticks| - 1;
      Agreed(Refresh(Run(s, defs, ticks[..n]), ticks[n].readings), defs, ticks[n].clock)
    ensures var after, v := Run(s, defs, ticks).context, Shows(t, params, TurnsOf(s, defs, ticks, x), out);
      v.Some? ==> Holds(after, defs[x].outputs[out], v.value)
  {
    var n := |ticks| - 1;
    var before := Refresh(Run(s, defs, ticks[..n]), ticks[n].readings);
    SameTables(before.blocks, s.blocks, defs);
    RunIsTurns(s, defs, ticks, x);
    MadeShows(t, params, TurnsOf(s, defs, ticks, x), out);
    var v := Shows(t, params, TurnsOf(s, defs, ticks, x), out);
    if v.Some? {
      OutputReachesItsPlace(before, defs, ticks[n].clock, ticks[n].plans, x, out, v.value);
    }
  }
}
