/** The scan cycle as one synchronous step, and when the hash maps' order lets it be one
    (`src/scripting/engine.rs`, phases 2 to 4 of `run_scan_cycle`). */
module Synchronous {
  import opened Wrappers
  import opened Wiring
  import opened EdgeTriggers
  import opened FunctionBlocks
  import opened ScriptContext
  import opened BlockState
  import opened ScanCycle

  datatype State = State(blocks: Blocks, context: Context)

  /** The orders in which one scan comes across everything. */
  datatype Plans = Plans(inputs: seq<Visit>, executes: seq<string>, outputs: seq<Visit>)

  ghost predicate ArePlans(o: Plans, blocks: Blocks, defs: Definitions) {
    && IsPlan(o.inputs, InputTable(blocks, defs))
    && Orders(o.executes, blocks.Keys)
    && IsPlan(o.outputs, OutputTable(blocks, defs))
  }

  lemma SameTables(a: Blocks, b: Blocks, defs: Definitions)
    requires a.Keys == b.Keys
    ensures InputTable(a, defs) == InputTable(b, defs) && OutputTable(a, defs) == OutputTable(b, defs)
  {
  }

  ghost function Latched(s: State, defs: Definitions, o: Plans): (r: Blocks)
    requires ArePlans(o, s.blocks, defs)
    ensures r.Keys == s.blocks.Keys
  {
    PlanCovers(o.inputs, InputTable(s.blocks, defs));
    WireInputs(s.blocks, defs, s.context, Flatten(o.inputs))
  }

  ghost function Executed(s: State, defs: Definitions, clock: string -> int, o: Plans): (r: Blocks)
    requires ArePlans(o, s.blocks, defs)
    ensures r.Keys == s.blocks.Keys
  {
    AnyOrderExecutesAll(Latched(s, defs, o), o.executes, clock);
    ExecuteInOrder(Latched(s, defs, o), o.executes, clock)
  }

  /** The three phases, in the given orders. */
  ghost function Scan(s: State, defs: Definitions, clock: string -> int, o: Plans): (r: State)
    requires ArePlans(o, s.blocks, defs)
    ensures r.blocks.Keys == s.blocks.Keys
  {
    var done := Executed(s, defs, clock, o);
    SameTables(done, s.blocks, defs);
    PlanCovers(o.outputs, OutputTable(done, defs));
    State(done, WireOutputs(done, defs, s.context, Flatten(o.outputs)))
  }

  ghost function SyncBlocks(s: State, defs: Definitions, clock: string -> int): (r: Blocks)
    ensures r.Keys == s.blocks.Keys
  {
    ExecuteAll(SyncInputs(s.blocks, defs, s.context), clock)
  }

  /** One synchronous step: every input takes what its source holds before the step, every block
      executes, every output goes where it is wired to. */
  ghost function Sync(s: State, defs: Definitions, clock: string -> int): (r: State)
    ensures r.blocks.Keys == s.blocks.Keys
  {
    State(SyncBlocks(s, defs, clock), SyncOutputs(SyncBlocks(s, defs, clock), defs, s.context))
  }

  /** No field is fed two values, and no place is sent two. */
  ghost predicate Agreed(s: State, defs: Definitions, clock: string -> int) {
    InputsAgree(s.blocks, defs, s.context) && OutputsAgree(SyncBlocks(s, defs, clock), defs)
  }

  lemma ScanIsSync(s: State, defs: Definitions, clock: string -> int, o: Plans)
    requires ArePlans(o, s.blocks, defs) && Agreed(s, defs, clock)
    ensures Scan(s, defs, clock, o) == Sync(s, defs, clock)
  {
    AgreedBlocks(s, defs, clock, o);
    SameTables(Executed(s, defs, clock, o), s.blocks, defs);
    AgreedOutputsAnyOrder(SyncBlocks(s, defs, clock), defs, s.context, o.outputs);
  }

  lemma AgreedBlocks(s: State, defs: Definitions, clock: string -> int, o: Plans)
    requires ArePlans(o, s.blocks, defs) && InputsAgree(s.blocks, defs, s.context)
    ensures Executed(s, defs, clock, o) == SyncBlocks(s, defs, clock)
  {
    AgreedInputsAnyOrder(s.blocks, defs, s.context, o.inputs);
    AnyOrderExecutesAll(Latched(s, defs, o), o.executes, clock);
  }

  /** Executing leaves the inputs as they were wired. */
  lemma ExecutedReads(s: State, defs: Definitions, clock: string -> int, o: Plans, pin: Pin)
    requires ArePlans(o, s.blocks, defs) && pin.id in s.blocks
    ensures Read(Executed(s, defs, clock, o)[pin.id], pin.field) == Read(Latched(s, defs, o)[pin.id], pin.field)
  {
    AnyOrderExecutesAll(Latched(s, defs, o), o.executes, clock);
    ExecuteKeepsInputs(Latched(s, defs, o)[pin.id], clock(pin.id));
  }

  lemma SomePlans(s: State, defs: Definitions) returns (o: Plans)
    ensures ArePlans(o, s.blocks, defs)
  {
    var inputs := SomePlan(InputTable(s.blocks, defs));
    var executes := SomeOrder(s.blocks.Keys);
    var outputs := SomePlan(OutputTable(s.blocks, defs));
    o := Plans(inputs, executes, outputs);
  }

  lemma InputCanWin(s: State, defs: Definitions, clock: string -> int, g: (Pin, Setting)) returns (o: Plans)
    requires g in InputGifts(s.blocks, defs, s.context)
    ensures ArePlans(o, s.blocks, defs) && g.0.id in s.blocks
    ensures Read(Scan(s, defs, clock, o).blocks[g.0.id], g.0.field) == Some(g.1)
  {
    var id, name :| id in s.blocks && id in defs && name in defs[id].inputs
                    && Delivery(s.blocks, defs, s.context, Wire(id, name)) == Some(g);
    o := SomePlans(s, defs);
    var inputs := DeliveryCanWin(s.blocks, defs, s.context, Wire(id, name));
    o := o.(inputs := inputs);
    ExecutedReads(s, defs, clock, o, g.0);
  }

  lemma OutputCanWin(s: State, defs: Definitions, clock: string -> int, g: (Slot, Value)) returns (o: Plans)
    requires InputsAgree(s.blocks, defs, s.context) && g in OutputGifts(SyncBlocks(s, defs, clock), defs)
    ensures ArePlans(o, s.blocks, defs) && At(Scan(s, defs, clock, o).context, g.0) == Some(g.1)
  {
    var done := SyncBlocks(s, defs, clock);
    var id, name :| id in done && id in defs && name in defs[id].outputs
                    && Emission(done, defs, Wire(id, name)) == Some(g);
    o := SomePlans(s, defs);
    SameTables(done, s.blocks, defs);
    var outputs := EmissionCanWin(done, defs, s.context, Wire(id, name));
    o := o.(outputs := outputs);
    AgreedBlocks(s, defs, clock, o);
  }

  ghost predicate OrderDoesNotMatter(s: State, defs: Definitions, clock: string -> int) {
    forall o, o' | ArePlans(o, s.blocks, defs) && ArePlans(o', s.blocks, defs) ::
      Scan(s, defs, clock, o) == Scan(s, defs, clock, o')
  }

  lemma DisagreeingInputsShow(s: State, defs: Definitions, clock: string -> int)
    requires !InputsAgree(s.blocks, defs, s.context)
    ensures !OrderDoesNotMatter(s, defs, clock)
  {
    var gifts := InputGifts(s.blocks, defs, s.context);
    var g, h :| g in gifts && h in gifts && g.0 == h.0 && g.1 != h.1;
    var o := InputCanWin(s, defs, clock, g);
    var o' := InputCanWin(s, defs, clock, h);
    assert Scan(s, defs, clock, o) != Scan(s, defs, clock, o');
  }

  lemma DisagreeingOutputsShow(s: State, defs: Definitions, clock: string -> int)
    requires InputsAgree(s.blocks, defs, s.context) && !OutputsAgree(SyncBlocks(s, defs, clock), defs)
    ensures !OrderDoesNotMatter(s, defs, clock)
  {
    var gifts := OutputGifts(SyncBlocks(s, defs, clock), defs);
    var g, h :| g in gifts && h in gifts && g.0 == h.0 && g.1 != h.1;
    var o := OutputCanWin(s, defs, clock, g);
    var o' := OutputCanWin(s, defs, clock, h);
    assert Scan(s, defs, clock, o) != Scan(s, defs, clock, o');
  }

  /** A scan comes out the same whatever the order of the maps exactly when no field is fed two
      different values and no place in the context is sent two; then it is the synchronous step. */
  lemma SynchronousExactly(s: State, defs: Definitions, clock: string -> int)
    ensures OrderDoesNotMatter(s, defs, clock) <==> Agreed(s, defs, clock)
    ensures Agreed(s, defs, clock) ==>
      forall o | ArePlans(o, s.blocks, defs) :: Scan(s, defs, clock, o) == Sync(s, defs, clock)
  {
    if Agreed(s, defs, clock) {
      forall o | ArePlans(o, s.blocks, defs) ensures Scan(s, defs, clock, o) == Sync(s, defs, clock) {
        ScanIsSync(s, defs, clock, o);
      }
    } else if !InputsAgree(s.blocks, defs, s.context) {
      DisagreeingInputsShow(s, defs, clock);
    } else {
      DisagreeingOutputsShow(s, defs, clock);
    }
  }

  // ---- What the step does to each input and each place ----

  ghost predicate Feeds(s: State, defs: Definitions, name: string, pin: Pin, x: Setting) {
    && pin.id in s.blocks && pin.id in defs && name in defs[pin.id].inputs
    && Delivery(s.blocks, defs, s.context, Wire(pin.id, name)) == Some((pin, x))
  }

  lemma FeedsAreGifts(s: State, defs: Definitions, pin: Pin, x: Setting)
    ensures (pin, x) in InputGifts(s.blocks, defs, s.context) <==> exists name :: Feeds(s, defs, name, pin, x)
  {
    if (pin, x) in InputGifts(s.blocks, defs, s.context) {
      var id, name :| id in s.blocks && id in defs && name in defs[id].inputs
                      && Delivery(s.blocks, defs, s.context, Wire(id, name)) == Some((pin, x));
      DeliveryFitsBlock(s.blocks, defs, s.context, Wire(id, name));
      assert Feeds(s, defs, name, pin, x);
    }
  }

  /** After an agreed step a field that is fed holds what its source held before the step (for a
      source that is a block, even the same block, its output of the last cycle), and a field
      that is not fed holds what it held. */
  lemma EveryInputTakesItsSource(s: State, defs: Definitions, clock: string -> int, pin: Pin)
    requires InputsAgree(s.blocks, defs, s.context) && pin.id in s.blocks
    ensures var held := Read(SyncBlocks(s, defs, clock)[pin.id], pin.field);
      && (forall name, x | Feeds(s, defs, name, pin, x) :: held == Some(x))
      && ((forall name, x :: !Feeds(s, defs, name, pin, x)) ==> held == Read(s.blocks[pin.id], pin.field))
  {
    var gifts := InputGifts(s.blocks, defs, s.context);
    var m := Joined(gifts);
    JoinedFits(s, defs);
    RowFits(s.blocks, m, pin.id);
    LatchedReads(s.blocks[pin.id], Row(m, pin.id), pin.field);
    ExecuteKeepsInputs(SyncInputs(s.blocks, defs, s.context)[pin.id], clock(pin.id));
    forall name, x | Feeds(s, defs, name, pin, x) ensures pin in m && m[pin] == x {
      FeedsAreGifts(s, defs, pin, x);
      assert (pin, m[pin]) in gifts;
    }
    if pin in m {
      FeedsAreGifts(s, defs, pin, m[pin]);
    }
  }

  lemma JoinedFits(s: State, defs: Definitions)
    ensures Fitting(s.blocks, Joined(InputGifts(s.blocks, defs, s.context)))
  {
    var m := Joined(InputGifts(s.blocks, defs, s.context));
    forall p | p in m ensures p.id in s.blocks && Fits(s.blocks[p.id], p.field, m[p]) {
      assert (p, m[p]) in InputGifts(s.blocks, defs, s.context);
      FeedsAreGifts(s, defs, p, m[p]);
      var name :| Feeds(s, defs, name, p, m[p]);
      DeliveryFitsBlock(s.blocks, defs, s.context, Wire(p.id, name));
    }
  }

  const TRIGGER := RTrig(TrigState(false, false, false))
  const BOTH_NAMES := Definition(
    "R_TRIG", Params(None, None), map["CLK" := Literal(BoolV(true)), "IN" := Literal(BoolV(false))], map[])

  /** A trigger fed through two names of its one input: whether it fires is up to the map. */
  lemma TwoNamesOfOneInput(clock: string -> int)
    ensures var s := State(map["edge" := TRIGGER], NOTHING);
      !OrderDoesNotMatter(s, map["edge" := BOTH_NAMES], clock)
  {
    var s, defs := State(map["edge" := TRIGGER], NOTHING), map["edge" := BOTH_NAMES];
    var pin := Pin("edge", Clock);
    assert Feeds(s, defs, "CLK", pin, SetBool(true));
    assert Feeds(s, defs, "IN", pin, SetBool(false));
    FeedsAreGifts(s, defs, pin, SetBool(true));
    FeedsAreGifts(s, defs, pin, SetBool(false));
    SynchronousExactly(s, defs, clock);
  }

  // ---- Wiring that agrees whatever the values are ----

  /** No two input names of a block mean one field, and no two outputs have one target. */
  ghost predicate WiredApart(blocks: Blocks, defs: Definitions) {
    && (forall id, a, b | id in blocks && id in defs && a in defs[id].inputs && b in defs[id].inputs
          && FieldOf(blocks[id], a).Some? && FieldOf(blocks[id], a) == FieldOf(blocks[id], b) :: a == b)
    && (forall v: Wire, w: Wire | IsWire(OutputTable(blocks, defs), v) && IsWire(OutputTable(blocks, defs), w)
          && !defs[v.id].outputs[v.name].Elsewhere?
          && defs[v.id].outputs[v.name] == defs[w.id].outputs[w.name] :: v == w)
  }

  lemma InputsApartAgree(blocks: Blocks, defs: Definitions, ctx: Context)
    requires WiredApart(blocks, defs)
    ensures InputsAgree(blocks, defs, ctx)
  {
    var gifts := InputGifts(blocks, defs, ctx);
    forall g, h | g in gifts && h in gifts && g.0 == h.0 ensures g.1 == h.1 {
      OneGiftApart(State(blocks, ctx), defs, g.0, g.1, h.1);
    }
  }

  lemma OneGiftApart(s: State, defs: Definitions, pin: Pin, v: Setting, w: Setting)
    requires WiredApart(s.blocks, defs)
    requires (pin, v) in InputGifts(s.blocks, defs, s.context) && (pin, w) in InputGifts(s.blocks, defs, s.context)
    ensures v == w
  {
    FeedsAreGifts(s, defs, pin, v);
    FeedsAreGifts(s, defs, pin, w);
    var a :| Feeds(s, defs, a, pin, v);
    var b :| Feeds(s, defs, b, pin, w);
    assert FieldOf(s.blocks[pin.id], a) == FieldOf(s.blocks[pin.id], b) == Some(pin.field);
  }

  lemma OutputsApartAgree(blocks: Blocks, defs: Definitions)
    requires WiredApart(blocks, defs)
    ensures OutputsAgree(blocks, defs)
  {
    var gifts := OutputGifts(blocks, defs);
    forall g, h | g in gifts && h in gifts && g.0 == h.0 ensures g.1 == h.1 {
      var v := EmitterOf(blocks, defs, g);
      var w := EmitterOf(blocks, defs, h);
    }
  }

  lemma EmitterOf(blocks: Blocks, defs: Definitions, g: (Slot, Value)) returns (w: Wire)
    requires g in OutputGifts(blocks, defs)
    ensures IsWire(OutputTable(blocks, defs), w) && Emission(blocks, defs, w) == Some(g)
    ensures defs[w.id].outputs[w.name]
            == if g.0.VariableSlot? then ToVariable(g.0.name) else ToSensor(g.0.name)
  {
    var id, name :| id in blocks && id in defs && name in defs[id].outputs
                    && Emission(blocks, defs, Wire(id, name)) == Some(g);
    w := Wire(id, name);
  }

  lemma StaysApart(s: State, defs: Definitions, clock: string -> int)
    requires WiredApart(s.blocks, defs)
    ensures WiredApart(SyncBlocks(s, defs, clock), defs)
  {
    var m := Joined(InputGifts(s.blocks, defs, s.context));
    var done := SyncBlocks(s, defs, clock);
    SameTables(s.blocks, done, defs);
    forall id | id in s.blocks ensures forall name :: FieldOf(done[id], name) == FieldOf(s.blocks[id], name) {
      var b, row := s.blocks[id], Row(m, id);
      FieldsStay(b, row, clock(id));
      FieldsStay(Latch(b, row), row, clock(id));
    }
  }

  /** Wiring of that kind always agrees. */
  lemma ApartAlwaysAgrees(s: State, defs: Definitions, clock: string -> int)
    requires WiredApart(s.blocks, defs)
    ensures Agreed(s, defs, clock) && WiredApart(Sync(s, defs, clock).blocks, defs)
  {
    InputsApartAgree(s.blocks, defs, s.context);
    StaysApart(s, defs, clock);
    OutputsApartAgree(SyncBlocks(s, defs, clock), defs);
  }

  // ---- Runs ----

  /** One cycle: new readings and whatever scripts have set since, then a scan. */
  datatype Tick = Tick(clock: string -> int, readings: Context, plans: Plans)

  function Refresh(s: State, readings: Context): State {
    s.(context := Context(s.context.sensors + readings.sensors, s.context.gpio + readings.gpio,
                          s.context.variables + readings.variables, s.context.ambient + readings.ambient))
  }

  /** What is read replaces what was there, and what is not stays. */
  lemma ReadingsArrive(s: State, readings: Context)
    ensures Refresh(s, readings).blocks == s.blocks
    ensures var now, was := Refresh(s, readings).context, s.context;
      && (forall n ::
            ReadSensor(now, n) == if n in readings.sensors then ReadSensor(readings, n) else ReadSensor(was, n))
      && (forall n ::
            ReadVariable(now, n) == if n in readings.variables then ReadVariable(readings, n) else ReadVariable(was, n))
      && (forall p | p in readings.gpio :: p in now.gpio && now.gpio[p] == readings.gpio[p])
      && (forall p | p in was.gpio && p !in readings.gpio :: p in now.gpio && now.gpio[p] == was.gpio[p])
  {
  }

  ghost predicate AllPlanned(s: State, defs: Definitions, ticks: seq<Tick>) {
    forall t | t in ticks :: ArePlans(t.plans, s.blocks, defs)
  }

  ghost function Run(s: State, defs: Definitions, ticks: seq<Tick>): (r: State)
    requires AllPlanned(s, defs, ticks)
    ensures r.blocks.Keys == s.blocks.Keys
    decreases |ticks|
  {
    if ticks == [] then s
    else
      var t := ticks[|ticks| - 1];
      var before := Run(s, defs, ticks[..|ticks| - 1]);
      SameTables(before.blocks, s.blocks, defs);
      Scan(Refresh(before, t.readings), defs, t.clock, t.plans)
  }

  ghost function SyncRun(s: State, defs: Definitions, ticks: seq<Tick>): State
    decreases |ticks|
  {
    if ticks == [] then s
    else
      var t := ticks[|ticks| - 1];
      Sync(Refresh(SyncRun(s, defs, ticks[..|ticks| - 1]), t.readings), defs, t.clock)
  }

  ghost predicate AgreedThroughout(s: State, defs: Definitions, ticks: seq<Tick>) {
    forall k | 0 <= k < |ticks| :: AgreedAt(s, defs, ticks, k)
  }

  ghost predicate AgreedAt(s: State, defs: Definitions, ticks: seq<Tick>, k: nat)
    requires k < |ticks|
  {
    Agreed(Refresh(SyncRun(s, defs, ticks[..k]), ticks[k].readings), defs, ticks[k].clock)
  }

  lemma RunOneMore(s: State, defs: Definitions, ticks: seq<Tick>)
    requires ticks != [] && AllPlanned(s, defs, ticks)
    requires Run(s, defs, ticks[..|ticks| - 1]) == SyncRun(s, defs, ticks[..|ticks| - 1])
    requires var t := ticks[|ticks| - 1];
      Agreed(Refresh(SyncRun(s, defs, ticks[..|ticks| - 1]), t.readings), defs, t.clock)
    ensures Run(s, defs, ticks) == SyncRun(s, defs, ticks)
  {
    var t := ticks[|ticks| - 1];
    var before := Refresh(Run(s, defs, ticks[..|ticks| - 1]), t.readings);
    SameTables(before.blocks, s.blocks, defs);
    ScanIsSync(before, defs, t.clock, t.plans);
  }

  /** A run is the run of synchronous steps, whatever orders came up in each scan, as long as the
      wiring agrees in every one. */
  lemma {:induction false} RunIsSynchronous(s: State, defs: Definitions, ticks: seq<Tick>)
    requires AllPlanned(s, defs, ticks) && AgreedThroughout(s, defs, ticks)
    ensures Run(s, defs, ticks) == SyncRun(s, defs, ticks)
    decreases |ticks|
  {
    if ticks != [] {
      var n := |ticks| - 1;
      AgreedEarlier(s, defs, ticks);
      RunIsSynchronous(s, defs, ticks[..n]);
      assert AgreedAt(s, defs, ticks, n);
      RunOneMore(s, defs, ticks);
    }
  }

  lemma AgreedEarlier(s: State, defs: Definitions, ticks: seq<Tick>)
    requires ticks != [] && AgreedThroughout(s, defs, ticks)
    ensures AgreedThroughout(s, defs, ticks[..|ticks| - 1])
  {
    var earlier := ticks[..|ticks| - 1];
    forall k | 0 <= k < |earlier| ensures AgreedAt(s, defs, earlier, k) {
      assert AgreedAt(s, defs, ticks, k) && earlier[..k] == ticks[..k];
    }
  }

  /** Wired apart, it does so for ever. */
  lemma {:induction false} ApartRunsAreSynchronous(s: State, defs: Definitions, ticks: seq<Tick>)
    requires AllPlanned(s, defs, ticks) && WiredApart(s.blocks, defs)
    ensures Run(s, defs, ticks) == SyncRun(s, defs, ticks)
  {
    forall k | 0 <= k < |ticks| ensures AgreedAt(s, defs, ticks, k) {
      RunStaysApart(s, defs, ticks[..k]);
      ApartAlwaysAgrees(Refresh(SyncRun(s, defs, ticks[..k]), ticks[k].readings), defs, ticks[k].clock);
    }
    RunIsSynchronous(s, defs, ticks);
  }

  lemma {:induction false} RunStaysApart(s: State, defs: Definitions, ticks: seq<Tick>)
    requires WiredApart(s.blocks, defs)
    ensures WiredApart(SyncRun(s, defs, ticks).blocks, defs)
    decreases |ticks|
  {
    if ticks != [] {
      var n := |ticks| - 1;
      RunStaysApart(s, defs, ticks[..n]);
      ApartAlwaysAgrees(Refresh(SyncRun(s, defs, ticks[..n]), ticks[n].readings), defs, ticks[n].clock);
    }
  }
}
