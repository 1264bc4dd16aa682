/** Creating blocks, and saving and restoring what they hold (`serialize_state` and
    `deserialize_state` in `src/scripting/function_blocks/`, `instantiate_fb` in
    `src/scripting/fb_registry.rs`). */
module BlockState {
  import opened Wrappers
  import opened EdgeTriggers
  import opened Counters
  import opened Timers
  import opened FunctionBlocks
  import opened ScriptContext

  datatype Params = Params(ptMs: Option<nat>, pv: Option<i32>)

  function Or<T>(x: Option<T>, default: T): T {
    if x.Some? then x.value else default
  }

  /** `to_uppercase`, on ASCII letters. */
  function Upper(s: string): string {
    seq(|s|, i requires 0 <= i < |s| => if 'a' <= s[i] <= 'z' then s[i] - 'a' + 'A' else s[i])
  }

  function Instantiate(fbType: string, params: Params): Option<Block> {
    var t, pt, pv := Upper(fbType), Or(params.ptMs, 1000), Or(params.pv, 10);
    if t == "TON" then Some(Ton(TonFresh(pt)))
    else if t == "TOF" then Some(Tof(TofFresh(pt)))
    else if t == "TP" then Some(Tp(TpFresh(pt)))
    else if t == "CTU" then Some(Ctu(CtuFresh(pv)))
    else if t == "CTD" then Some(Ctd(CtdFresh(pv)))
    else if t == "CTUD" then Some(Ctud(CtudFresh(pv)))
    else if t == "R_TRIG" then Some(RTrig(FRESH))
    else if t == "F_TRIG" then Some(FTrig(FRESH))
    else None
  }

  /** A JSON object. */
  type Fields = map<string, Value>

  const U64_LIMIT: int := 0x1_0000_0000_0000_0000
  const I64_LIMIT: int := 0x8000_0000_0000_0000

  function Mark(m: Mode): Value {
    TextV(if m == WallClock then "wall_clock" else "scan_cycle")
  }

  /** The saved fields.  Where a timer started is not one of them. */
  function Save(b: Block): Fields {
    match b
    case Ton(s) =>
      map["pt_ms" := IntV(s.pt), "et_ms" := IntV(s.et), "input" := BoolV(s.input),
          "output" := BoolV(s.output), "prev_input" := BoolV(s.prevInput), "mode" := Mark(s.mode),
          "scan_count" := IntV(s.scanCount), "cycle_time_ms" := IntV(s.cycleTime)]
    case Tof(s) =>
      map["pt_ms" := IntV(s.pt), "et_ms" := IntV(s.et), "input" := BoolV(s.input),
          "output" := BoolV(s.output), "prev_input" := BoolV(s.prevInput)]
    case Tp(s) =>
      map["pt_ms" := IntV(s.pt), "et_ms" := IntV(s.et), "input" := BoolV(s.input),
          "output" := BoolV(s.output), "prev_input" := BoolV(s.prevInput),
          "pulse_active" := BoolV(s.pulseActive)]
    case Ctu(s) =>
      map["pv" := IntV(s.pv), "cv" := IntV(s.cv), "cu" := BoolV(s.cu), "reset" := BoolV(s.reset),
          "q" := BoolV(s.q), "prev_cu" := BoolV(s.prevCu)]
    case Ctd(s) =>
      map["pv" := IntV(s.pv), "cv" := IntV(s.cv), "cd" := BoolV(s.cd), "load" := BoolV(s.load),
          "q" := BoolV(s.q), "prev_cd" := BoolV(s.prevCd)]
    case Ctud(s) =>
      map["pv" := IntV(s.pv), "cv" := IntV(s.cv), "cu" := BoolV(s.cu), "cd" := BoolV(s.cd),
          "reset" := BoolV(s.reset), "load" := BoolV(s.load), "qu" := BoolV(s.qu), "qd" := BoolV(s.qd),
          "prev_cu" := BoolV(s.prevCu), "prev_cd" := BoolV(s.prevCd)]
    case RTrig(s) => map["clk" := BoolV(s.clk), "q" := BoolV(s.q), "prev_clk" := BoolV(s.prevClk)]
    case FTrig(s) => map["clk" := BoolV(s.clk), "q" := BoolV(s.q), "prev_clk" := BoolV(s.prevClk)]
  }

  function Flag(o: Fields, name: string, old0: bool): bool {
    if name in o && o[name].BoolV? then o[name].b else old0
  }

  function Unsigned(o: Fields, name: string, old0: nat): nat {
    if name in o && o[name].IntV? && 0 <= o[name].i < U64_LIMIT then o[name].i else old0
  }

  function Count(o: Fields, name: string, old0: i32): i32 {
    if name in o && o[name].IntV? && -I64_LIMIT <= o[name].i < I64_LIMIT then ToI32(o[name].i) else old0
  }

  /** Taking over an object.  Fields that are missing or of another type leave the block's own. */
  function Restore(b: Block, o: Fields, now: int): Block {
    match b
    case Ton(s) =>
      var mode :=
        if "mode" in o && o["mode"].TextV?
        then if o["mode"].t == "scan_cycle" then ScanCycle else WallClock
        else s.mode;
      var r := s.(
        pt := Unsigned(o, "pt_ms", s.pt), et := Unsigned(o, "et_ms", s.et), input := Flag(o, "input", s.input),
        output := Flag(o, "output", s.output), prevInput := Flag(o, "prev_input", s.prevInput), mode := mode,
        scanCount := Unsigned(o, "scan_count", s.scanCount),
        cycleTime := Max(Unsigned(o, "cycle_time_ms", s.cycleTime), 1));
      Ton(if r.mode == WallClock && r.input && 0 < r.et < r.pt then r.(start := Some(now - r.et)) else r)
    case Tof(s) =>
      var r := s.(
        pt := Unsigned(o, "pt_ms", s.pt), et := Unsigned(o, "et_ms", s.et), input := Flag(o, "input", s.input),
        output := Flag(o, "output", s.output), prevInput := Flag(o, "prev_input", s.prevInput));
      Tof(if !r.input && r.output && 0 < r.et < r.pt then r.(start := Some(now - r.et)) else r)
    case Tp(s) =>
      var r := s.(
        pt := Unsigned(o, "pt_ms", s.pt), et := Unsigned(o, "et_ms", s.et), input := Flag(o, "input", s.input),
        output := Flag(o, "output", s.output), prevInput := Flag(o, "prev_input", s.prevInput),
        pulseActive := Flag(o, "pulse_active", s.pulseActive));
      Tp(if r.pulseActive && 0 < r.et < r.pt then r.(start := Some(now - r.et)) else r)
    case Ctu(s) =>
      Ctu(CtuState(Count(o, "pv", s.pv), Count(o, "cv", s.cv), Flag(o, "cu", s.cu), Flag(o, "reset", s.reset),
                   Flag(o, "q", s.q), Flag(o, "prev_cu", s.prevCu)))
    case Ctd(s) =>
      Ctd(CtdState(Count(o, "pv", s.pv), Count(o, "cv", s.cv), Flag(o, "cd", s.cd), Flag(o, "load", s.load),
                   Flag(o, "q", s.q), Flag(o, "prev_cd", s.prevCd)))
    case Ctud(s) =>
      Ctud(CtudState(Count(o, "pv", s.pv), Count(o, "cv", s.cv), Flag(o, "cu", s.cu), Flag(o, "cd", s.cd),
                     Flag(o, "reset", s.reset), Flag(o, "load", s.load), Flag(o, "qu", s.qu),
                     Flag(o, "qd", s.qd), Flag(o, "prev_cu", s.prevCu), Flag(o, "prev_cd", s.prevCd)))
    case RTrig(s) =>
      RTrig(TrigState(Flag(o, "clk", s.clk), Flag(o, "q", s.q), Flag(o, "prev_clk", s.prevClk)))
    case FTrig(s) =>
      FTrig(TrigState(Flag(o, "clk", s.clk), Flag(o, "q", s.q), Flag(o, "prev_clk", s.prevClk)))
  }

  predicate SameKind(a: Block, b: Block) {
    match a
    case Ton(_) => b.Ton?
    case Tof(_) => b.Tof?
    case Tp(_) => b.Tp?
    case Ctu(_) => b.Ctu?
    case Ctd(_) => b.Ctd?
    case Ctud(_) => b.Ctud?
    case RTrig(_) => b.RTrig?
    case FTrig(_) => b.FTrig?
  }

  /** Times are 64-bit, and a cycle time is at least one. */
  predicate Sound(b: Block) {
    match b
    case Ton(s) =>
      s.pt < U64_LIMIT && s.et < U64_LIMIT && s.scanCount < U64_LIMIT && 1 <= s.cycleTime < U64_LIMIT
    case Tof(s) => s.pt < U64_LIMIT && s.et < U64_LIMIT
    case Tp(s) => s.pt < U64_LIMIT && s.et < U64_LIMIT
    case _ => true
  }

  predicate NotStarted(b: Block) {
    match b
    case Ton(s) => s.start.None?
    case Tof(s) => s.start.None?
    case Tp(s) => s.start.None?
    case _ => true
  }

  /** The block, with its start, if it is a timer, worked out anew. */
  function Revived(b: Block, now: int): Block {
    match b
    case Ton(s) => Ton(TonRestore(s, now))
    case Tof(s) => Tof(TofRestore(s, now))
    case Tp(s) => Tp(TpRestore(s, now))
    case _ => b
  }

  lemma TonRoundTrip(s: TonState, t: TonState, now: int)
    requires Sound(Ton(s)) && t.start.None?
    ensures Restore(Ton(t), Save(Ton(s)), now) == Ton(TonRestore(s, now))
  {
  }

  lemma TofRoundTrip(s: TofState, t: TofState, now: int)
    requires Sound(Tof(s)) && t.start.None?
    ensures Restore(Tof(t), Save(Tof(s)), now) == Tof(TofRestore(s, now))
  {
  }

  lemma TpRoundTrip(s: TpState, t: TpState, now: int)
    requires Sound(Tp(s)) && t.start.None?
    ensures Restore(Tp(t), Save(Tp(s)), now) == Tp(TpRestore(s, now))
  {
  }

  lemma CtuRoundTrip(s: CtuState, t: CtuState, now: int)
    ensures Restore(Ctu(t), Save(Ctu(s)), now) == Ctu(s)
  {
  }

  lemma CtdRoundTrip(s: CtdState, t: CtdState, now: int)
    ensures Restore(Ctd(t), Save(Ctd(s)), now) == Ctd(s)
  {
  }

  lemma CtudSavesInputs(s: CtudState, t: CtudState)
    ensures var o := Save(Ctud(s));
      && Count(o, "pv", t.pv) == s.pv && Count(o, "cv", t.cv) == s.cv
      && Flag(o, "cu", t.cu) == s.cu && Flag(o, "cd", t.cd) == s.cd
      && Flag(o, "reset", t.reset) == s.reset && Flag(o, "load", t.load) == s.load
  {
  }

  lemma CtudSavesOutputs(s: CtudState, t: CtudState)
    ensures var o := Save(Ctud(s));
      && Flag(o, "qu", t.qu) == s.qu && Flag(o, "qd", t.qd) == s.qd
      && Flag(o, "prev_cu", t.prevCu) == s.prevCu && Flag(o, "prev_cd", t.prevCd) == s.prevCd
  {
  }

  lemma CtudRoundTrip(s: CtudState, t: CtudState, now: int)
    ensures Restore(Ctud(t), Save(Ctud(s)), now) == Ctud(s)
  {
    CtudSavesInputs(s, t);
    CtudSavesOutputs(s, t);
  }

  /** Saving a block and restoring it into a new one of its kind, whatever that one's presets,
      gives back everything but the start of a timer. */
  lemma RoundTrip(b: Block, blank: Block, now: int)
    requires Sound(b) && SameKind(b, blank) && NotStarted(blank)
    ensures Restore(blank, Save(b), now) == Revived(b, now)
  {
    match b {
      case Ton(s) => TonRoundTrip(s, blank.ton, now);
      case Tof(s) => TofRoundTrip(s, blank.tof, now);
      case Tp(s) => TpRoundTrip(s, blank.tp, now);
      case Ctu(s) => CtuRoundTrip(s, blank.ctu, now);
      case Ctd(s) => CtdRoundTrip(s, blank.ctd, now);
      case Ctud(s) => CtudRoundTrip(s, blank.ctud, now);
      case RTrig(s) =>
      case FTrig(s) =>
    }
  }

  /** A value that no field of the block takes. */
  ghost predicate Foreign(b: Block, v: Value) {
    && !v.BoolV? && !v.TextV?
    && (v.IntV? ==> if IsCounter(b) then v.i < -I64_LIMIT || v.i >= I64_LIMIT else v.i < 0 || v.i >= U64_LIMIT)
  }

  /** An object of foreign values, or an empty one, leaves the block as it is but for its start. */
  lemma ForeignFieldsAreLeft(b: Block, o: Fields, now: int)
    requires Sound(b) && NotStarted(b) && forall name | name in o :: Foreign(b, o[name])
    ensures Restore(b, o, now) == Revived(b, now)
  {
  }

  // ---- What a restart changes ----

  /** It counts scans, and nothing given to it changes that. */
  ghost predicate CountsScans(b: Block, turns: seq<Turn>) {
    && b.Ton? && b.ton.mode == ScanCycle
    && forall turn, g | turn in turns && g in turn.given && g.0 in {"MODE", "mode"} ::
         g.1 !in {TextV("wall_clock"), TextV("wallclock")}
  }

  ghost predicate SameButStart(a: Block, b: Block) {
    a.Ton? && b.Ton? && a.ton.mode == ScanCycle && a.ton.(start := None) == b.ton.(start := None)
  }

  lemma GivenAlike(a: Block, b: Block, name: string, v: Value)
    requires SameButStart(a, b)
    requires name in {"MODE", "mode"} ==> v !in {TextV("wall_clock"), TextV("wallclock")}
    ensures SameButStart(SetInput(a, name, v), SetInput(b, name, v))
  {
  }

  lemma {:induction false} AllGivenAlike(a: Block, b: Block, given: seq<(string, Value)>)
    requires SameButStart(a, b)
    requires forall g | g in given && g.0 in {"MODE", "mode"} :: g.1 !in {TextV("wall_clock"), TextV("wallclock")}
    ensures SameButStart(Give(a, given), Give(b, given))
  {
    if given != [] {
      var earlier, last := given[..|given| - 1], given[|given| - 1];
      assert last in given;
      AllGivenAlike(a, b, earlier);
      GivenAlike(Give(a, earlier), Give(b, earlier), last.0, last.1);
    }
  }

  lemma {:induction false} StartIsIdle(a: Block, b: Block, turns: seq<Turn>)
    requires CountsScans(a, turns) && SameButStart(a, b)
    ensures SameButStart(After(a, turns), After(b, turns))
  {
    if turns != [] {
      var earlier, last := turns[..|turns| - 1], turns[|turns| - 1];
      assert last in turns;
      StartIsIdle(a, b, earlier);
      AllGivenAlike(After(a, earlier), After(b, earlier), last.given);
    }
  }

  /** A counter, an edge detector, or a TON held counting scans goes on after a restart exactly as
      it would have without one, whatever is given to its inputs from then on. */
  lemma RestartIsInvisible(b: Block, blank: Block, now: int, turns: seq<Turn>)
    requires Sound(b) && SameKind(b, blank) && NotStarted(blank)
    requires !b.Tof? && !b.Tp?
    requires b.Ton? ==> CountsScans(b, turns)
    ensures forall name ::
      GetOutput(After(Restore(blank, Save(b), now), turns), name) == GetOutput(After(b, turns), name)
  {
    RoundTrip(b, blank, now);
    if b.Ton? {
      StartIsIdle(b, Restore(blank, Save(b), now), turns);
    }
  }
}
