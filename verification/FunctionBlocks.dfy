/** The eight function blocks behind one interface (`src/scripting/function_blocks/mod.rs` and
    the `FunctionBlock` implementations beside it). */
module FunctionBlocks {
  import opened Wrappers
  import opened EdgeTriggers
  import opened Counters
  import opened Timers
  import opened ScriptContext

  datatype Block =
    | Ton(ton: TonState)
    | Tof(tof: TofState)
    | Tp(tp: TpState)
    | Ctu(ctu: CtuState)
    | Ctd(ctd: CtdState)
    | Ctud(ctud: CtudState)
    | RTrig(rtrig: TrigState)
    | FTrig(ftrig: TrigState)

  /** The input fields of blocks.  Several names may lead to one field. */
  datatype Field = In | Preset | ModeField | CycleTime | Up | Down | ResetField | LoadField | Clock

  datatype Setting = SetBool(b: bool) | SetNat(n: nat) | SetInt(v: i32) | SetMode(m: Mode)

  function FieldOf(b: Block, name: string): Option<Field> {
    match b
    case Ton(_) =>
      if name in {"IN", "in", "input"} then Some(In)
      else if name in {"PT", "pt", "preset"} then Some(Preset)
      else if name in {"MODE", "mode"} then Some(ModeField)
      else if name in {"CYCLE_TIME", "cycle_time"} then Some(CycleTime)
      else None
    case Tof(_) => TimerField(name)
    case Tp(_) => TimerField(name)
    case Ctu(_) =>
      if name in {"CU", "cu", "count_up"} then Some(Up)
      else if name in {"R", "r", "reset"} then Some(ResetField)
      else if name in {"PV", "pv", "preset"} then Some(Preset)
      else None
    case Ctd(_) =>
      if name in {"CD", "cd", "count_down"} then Some(Down)
      else if name in {"LD", "ld", "load"} then Some(LoadField)
      else if name in {"PV", "pv", "preset"} then Some(Preset)
      else None
    case Ctud(_) =>
      if name in {"CU", "cu", "count_up"} then Some(Up)
      else if name in {"CD", "cd", "count_down"} then Some(Down)
      else if name in {"R", "r", "reset"} then Some(ResetField)
      else if name in {"LD", "ld", "load"} then Some(LoadField)
      else if name in {"PV", "pv", "preset"} then Some(Preset)
      else None
    case RTrig(_) => ClockField(name)
    case FTrig(_) => ClockField(name)
  }

  function TimerField(name: string): Option<Field> {
    if name in {"IN", "in", "input"} then Some(In)
    else if name in {"PT", "pt", "preset"} then Some(Preset)
    else None
  }

  function ClockField(name: string): Option<Field> {
    if name in {"CLK", "clk", "clock", "IN", "in", "input"} then Some(Clock) else None
  }

  predicate IsCounter(b: Block) {
    b.Ctu? || b.Ctd? || b.Ctud?
  }

  /** What a value sets a field to, if the field takes it.  Presets are unsigned for timers and
      cut to 32 bits for counters. */
  function Accept(b: Block, f: Field, v: Value): Option<Setting> {
    match f
    case Preset =>
      if IsCounter(b) then
        if v.IntV? && -0x8000_0000_0000_0000 <= v.i < 0x8000_0000_0000_0000
        then Some(SetInt(ToI32(v.i))) else None
      else if v.IntV? && 0 <= v.i < 0x1_0000_0000_0000_0000 then Some(SetNat(v.i)) else None
    case CycleTime =>
      if v.IntV? && 0 <= v.i < 0x1_0000_0000_0000_0000 then Some(SetNat(Max(v.i, 1))) else None
    case ModeField =>
      if v.TextV? && v.t in {"wall_clock", "wallclock"} then Some(SetMode(WallClock))
      else if v.TextV? && v.t in {"scan_cycle", "scancycle"} then Some(SetMode(ScanCycle))
      else None
    case _ => if v.BoolV? then Some(SetBool(v.b)) else None
  }

  /** The setting that an input of a block gets from a value. */
  function Deliver(b: Block, name: string, v: Value): Option<(Field, Setting)> {
    var f := FieldOf(b, name);
    if f.None? then None
    else
      var x := Accept(b, f.value, v);
      if x.None? then None else Some((f.value, x.value))
  }

  function BoolAt(m: map<Field, Setting>, f: Field, old0: bool): bool {
    if f in m && m[f].SetBool? then m[f].b else old0
  }

  function NatAt(m: map<Field, Setting>, f: Field, old0: nat): nat {
    if f in m && m[f].SetNat? then m[f].n else old0
  }

  function IntAt(m: map<Field, Setting>, f: Field, old0: i32): i32 {
    if f in m && m[f].SetInt? then m[f].v else old0
  }

  function ModeAt(m: map<Field, Setting>, f: Field, old0: Mode): Mode {
    if f in m && m[f].SetMode? then m[f].m else old0
  }

  /** All the given settings taken over at once. */
  function Latch(b: Block, m: map<Field, Setting>): Block {
    match b
    case Ton(s) =>
      Ton(s.(input := BoolAt(m, In, s.input), pt := NatAt(m, Preset, s.pt),
             mode := ModeAt(m, ModeField, s.mode), cycleTime := NatAt(m, CycleTime, s.cycleTime)))
    case Tof(s) => Tof(s.(input := BoolAt(m, In, s.input), pt := NatAt(m, Preset, s.pt)))
    case Tp(s) => Tp(s.(input := BoolAt(m, In, s.input), pt := NatAt(m, Preset, s.pt)))
    case Ctu(s) =>
      Ctu(s.(cu := BoolAt(m, Up, s.cu), reset := BoolAt(m, ResetField, s.reset), pv := IntAt(m, Preset, s.pv)))
    case Ctd(s) =>
      Ctd(s.(cd := BoolAt(m, Down, s.cd), load := BoolAt(m, LoadField, s.load), pv := IntAt(m, Preset, s.pv)))
    case Ctud(s) =>
      Ctud(s.(cu := BoolAt(m, Up, s.cu), cd := BoolAt(m, Down, s.cd), reset := BoolAt(m, ResetField, s.reset),
              load := BoolAt(m, LoadField, s.load), pv := IntAt(m, Preset, s.pv)))
    case RTrig(s) => RTrig(s.(clk := BoolAt(m, Clock, s.clk)))
    case FTrig(s) => FTrig(s.(clk := BoolAt(m, Clock, s.clk)))
  }

  function SetInput(b: Block, name: string, v: Value): Block {
    var d := Deliver(b, name, v);
    if d.None? then b else Latch(b, map[d.value.0 := d.value.1])
  }

  function Execute(b: Block, now: int): Block {
    match b
    case Ton(s) => Ton(TonStep(s, now))
    case Tof(s) => Tof(TofStep(s, now))
    case Tp(s) => Tp(TpStep(s, now))
    case Ctu(s) => Ctu(CtuStep(s))
    case Ctd(s) => Ctd(CtdStep(s))
    case Ctud(s) => Ctud(CtudStep(s))
    case RTrig(s) => RTrig(RisingStep(s))
    case FTrig(s) => FTrig(FallingStep(s))
  }

  function GetOutput(b: Block, name: string): Option<Value> {
    var q := name in {"Q", "q", "output"};
    var et := name in {"ET", "et", "elapsed"};
    var cv := name in {"CV", "cv", "count"};
    match b
    case Ton(s) => if q then Some(BoolV(s.output)) else if et then Some(IntV(s.et)) else None
    case Tof(s) => if q then Some(BoolV(s.output)) else if et then Some(IntV(s.et)) else None
    case Tp(s) => if q then Some(BoolV(s.output)) else if et then Some(IntV(s.et)) else None
    case Ctu(s) => if q then Some(BoolV(s.q)) else if cv then Some(IntV(s.cv)) else None
    case Ctd(s) => if q then Some(BoolV(s.q)) else if cv then Some(IntV(s.cv)) else None
    case Ctud(s) =>
      if name in {"QU", "qu", "up_output"} then Some(BoolV(s.qu))
      else if name in {"QD", "qd", "down_output"} then Some(BoolV(s.qd))
      else if cv then Some(IntV(s.cv)) else None
    case RTrig(s) => if q then Some(BoolV(s.q)) else None
    case FTrig(s) => if q then Some(BoolV(s.q)) else None
  }

  /** What an input field holds. */
  function Read(b: Block, f: Field): Option<Setting> {
    match (b, f)
    case (Ton(s), In) => Some(SetBool(s.input))
    case (Ton(s), Preset) => Some(SetNat(s.pt))
    case (Ton(s), ModeField) => Some(SetMode(s.mode))
    case (Ton(s), CycleTime) => Some(SetNat(s.cycleTime))
    case (Tof(s), In) => Some(SetBool(s.input))
    case (Tof(s), Preset) => Some(SetNat(s.pt))
    case (Tp(s), In) => Some(SetBool(s.input))
    case (Tp(s), Preset) => Some(SetNat(s.pt))
    case (Ctu(s), Up) => Some(SetBool(s.cu))
    case (Ctu(s), ResetField) => Some(SetBool(s.reset))
    case (Ctu(s), Preset) => Some(SetInt(s.pv))
    case (Ctd(s), Down) => Some(SetBool(s.cd))
    case (Ctd(s), LoadField) => Some(SetBool(s.load))
    case (Ctd(s), Preset) => Some(SetInt(s.pv))
    case (Ctud(s), Up) => Some(SetBool(s.cu))
    case (Ctud(s), Down) => Some(SetBool(s.cd))
    case (Ctud(s), ResetField) => Some(SetBool(s.reset))
    case (Ctud(s), LoadField) => Some(SetBool(s.load))
    case (Ctud(s), Preset) => Some(SetInt(s.pv))
    case (RTrig(s), Clock) => Some(SetBool(s.clk))
    case (FTrig(s), Clock) => Some(SetBool(s.clk))
    case (_, _) => None
  }

  /** The setting has the type of the field. */
  predicate Fits(b: Block, f: Field, x: Setting) {
    match Read(b, f)
    case None => false
    case Some(SetBool(_)) => x.SetBool?
    case Some(SetNat(_)) => x.SetNat?
    case Some(SetInt(_)) => x.SetInt?
    case Some(SetMode(_)) => x.SetMode?
  }

  predicate AllFit(b: Block, m: map<Field, Setting>) {
    forall f | f in m :: Fits(b, f, m[f])
  }

  // ---- Inputs and outputs keep apart ----

  lemma DeliveryFits(b: Block, name: string, v: Value)
    ensures Deliver(b, name, v).Some? ==> Fits(b, Deliver(b, name, v).value.0, Deliver(b, name, v).value.1)
  {
  }

  /** Setting inputs changes no output. */
  lemma LatchKeepsOutputs(b: Block, m: map<Field, Setting>)
    ensures forall name :: GetOutput(Latch(b, m), name) == GetOutput(b, name)
  {
  }

  /** Setting inputs does not change which inputs there are, and what they take. */
  lemma LatchKeepsInputs(b: Block, m: map<Field, Setting>, name: string, v: Value)
    ensures Deliver(Latch(b, m), name, v) == Deliver(b, name, v)
  {
  }

  /** Executing changes no input, and not which inputs there are. */
  lemma ExecuteKeepsInputs(b: Block, now: int)
    ensures forall f :: Read(Execute(b, now), f) == Read(b, f)
    ensures forall name, v :: Deliver(Execute(b, now), name, v) == Deliver(b, name, v)
  {
  }

  /** A latched field holds its setting, the others what they held. */
  lemma LatchedReads(b: Block, m: map<Field, Setting>, f: Field)
    requires AllFit(b, m)
    ensures Read(Latch(b, m), f) == (if f in m then Some(m[f]) else Read(b, f))
  {
  }

  lemma TimerOneMore(b: Block, m: map<Field, Setting>, f: Field, x: Setting)
    requires b.Ton? || b.Tof? || b.Tp?
    requires AllFit(b, m) && Fits(b, f, x)
    ensures Latch(Latch(b, m), map[f := x]) == Latch(b, m[f := x])
  {
  }

  lemma CounterOneMore(b: Block, m: map<Field, Setting>, f: Field, x: Setting)
    requires (b.Ctu? || b.Ctd?) && AllFit(b, m) && Fits(b, f, x)
    ensures Latch(Latch(b, m), map[f := x]) == Latch(b, m[f := x])
  {
  }

  lemma UpDownCounterOneMore(b: Block, m: map<Field, Setting>, f: Field, x: Setting)
    requires b.Ctud? && AllFit(b, m) && Fits(b, f, x)
    ensures Latch(Latch(b, m), map[f := x]) == Latch(b, m[f := x])
  {
  }

  /** One more setting on top of a latch is a latch with that setting replaced. */
  lemma LatchOneMore(b: Block, m: map<Field, Setting>, f: Field, x: Setting)
    requires AllFit(b, m) && Fits(b, f, x)
    ensures Latch(Latch(b, m), map[f := x]) == Latch(b, m[f := x])
  {
    if b.Ctud? {
      UpDownCounterOneMore(b, m, f, x);
    } else if IsCounter(b) {
      CounterOneMore(b, m, f, x);
    } else if !b.RTrig? && !b.FTrig? {
      TimerOneMore(b, m, f, x);
    }
  }

  /** The name of an input leads to the same field for ever. */
  lemma FieldsStay(b: Block, m: map<Field, Setting>, now: int)
    ensures forall name :: FieldOf(Latch(b, m), name) == FieldOf(Execute(b, now), name) == FieldOf(b, name)
  {
  }

  lemma LatchNothing(b: Block)
    ensures Latch(b, map[]) == b
  {
  }

  /** A sensor reading, which always comes as a fraction, is accepted by no input of any block. */
  lemma NoInputTakesReals(b: Block, name: string, r: real)
    ensures Deliver(b, name, RealV(r)) == None && SetInput(b, name, RealV(r)) == b
  {
  }

  // ---- Histories ----

  /** One scan of one block: what is given to its inputs, in order, and its look at the clock. */
  datatype Turn = Turn(given: seq<(string, Value)>, now: int)

  function Give(b: Block, given: seq<(string, Value)>): Block {
    if given == [] then b
    else
      var last := given[|given| - 1];
      SetInput(Give(b, given[..|given| - 1]), last.0, last.1)
  }

  ghost function After(b: Block, turns: seq<Turn>): Block {
    if turns == [] then b
    else
      var last := turns[|turns| - 1];
      Execute(Give(After(b, turns[..|turns| - 1]), last.given), last.now)
  }
}
