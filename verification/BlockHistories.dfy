/** What a block shows: from the values given to its inputs by name, scan after scan, to the values read
    from its outputs by name (`src/scripting/fb_registry.rs` and the blocks in
    `src/scripting/function_blocks/`). */
module BlockHistories {
  import opened Wrappers
  import opened EdgeTriggers
  import opened Counters
  import T = Timers
  import opened FunctionBlocks
  import opened ScriptContext
  import opened BlockState

  // ---- The inputs, by name ----

  /** What an input with these names is once `v` is given to the input `name`: it takes truth values. */
  function TakeBool(name: string, v: Value, names: set<string>, old0: bool): bool {
    if name in names && v.BoolV? then v.b else old0
  }

  /** It takes unsigned 64-bit integers. */
  function TakeNat(name: string, v: Value, names: set<string>, old0: nat): nat {
    if name in names && IsUnsigned(v) then v.i else old0
  }

  predicate IsUnsigned(v: Value) {
    v.IntV? && 0 <= v.i < 0x1_0000_0000_0000_0000
  }

  /** It takes signed 64-bit integers, and cuts them to 32 bits. */
  function TakeInt(name: string, v: Value, names: set<string>, old0: i32): i32 {
    if name in names && v.IntV? && -0x8000_0000_0000_0000 <= v.i < 0x8000_0000_0000_0000 then ToI32(v.i) else old0
  }

  /** The last value of its type that is given, or what the input was before. */
  function LastBool(given: seq<(string, Value)>, names: set<string>, old0: bool): bool {
    if given == [] then old0
    else
      var last := given[|given| - 1];
      TakeBool(last.0, last.1, names, LastBool(given[..|given| - 1], names, old0))
  }

  function LastNat(given: seq<(string, Value)>, names: set<string>, old0: nat): nat {
    if given == [] then old0
    else
      var last := given[|given| - 1];
      TakeNat(last.0, last.1, names, LastNat(given[..|given| - 1], names, old0))
  }

  function LastInt(given: seq<(string, Value)>, names: set<string>, old0: i32): i32 {
    if given == [] then old0
    else
      var last := given[|given| - 1];
      TakeInt(last.0, last.1, names, LastInt(given[..|given| - 1], names, old0))
  }

  /** What an input is in the last scan; it stays as it is when nothing is given to it. */
  ghost function BoolInput(turns: seq<Turn>, names: set<string>): bool {
    turns != []
    && LastBool(turns[|turns| - 1].given, names, BoolInput(turns[..|turns| - 1], names))
  }

  ghost function NatInput(turns: seq<Turn>, names: set<string>, first: nat): nat {
    if turns == [] then first
    else LastNat(turns[|turns| - 1].given, names, NatInput(turns[..|turns| - 1], names, first))
  }

  ghost function IntInput(turns: seq<Turn>, names: set<string>, first: i32): i32 {
    if turns == [] then first
    else LastInt(turns[|turns| - 1].given, names, IntInput(turns[..|turns| - 1], names, first))
  }

  const IN := {"IN", "in", "input"}
  const PT := {"PT", "pt", "preset"}
  const PV := {"PV", "pv", "preset"}
  const CU := {"CU", "cu", "count_up"}
  const CD := {"CD", "cd", "count_down"}
  const R := {"R", "r", "reset"}
  const LD := {"LD", "ld", "load"}
  const CLK := {"CLK", "clk", "clock", "IN", "in", "input"}

  // ---- Timers ----

  ghost function TimerScans(turns: seq<Turn>, pt: nat): (h: seq<T.Scan>)
    ensures |h| == |turns|
  {
    if turns == [] then []
    else
      TimerScans(turns[..|turns| - 1], pt)
      + [T.Scan(BoolInput(turns, IN), NatInput(turns, PT, pt), turns[|turns| - 1].now)]
  }

  const MODE := {"MODE", "mode"}
  const CYCLE := {"CYCLE_TIME", "cycle_time"}

  function TakeMode(name: string, v: Value, old0: T.Mode): T.Mode {
    if name in MODE && v in {TextV("wall_clock"), TextV("wallclock")} then T.WallClock
    else if name in MODE && v in {TextV("scan_cycle"), TextV("scancycle")} then T.ScanCycle
    else old0
  }

  function LastMode(given: seq<(string, Value)>, old0: T.Mode): T.Mode {
    if given == [] then old0
    else
      var last := given[|given| - 1];
      TakeMode(last.0, last.1, LastMode(given[..|given| - 1], old0))
  }

  /** The last cycle time given, which is at least one. */
  function LastCycle(given: seq<(string, Value)>, old0: nat): nat {
    if given == [] then old0
    else
      var last := given[|given| - 1];
      if last.0 in CYCLE && IsUnsigned(last.1) then Max(last.1.i, 1) else LastCycle(given[..|given| - 1], old0)
  }

  ghost function ModeInput(turns: seq<Turn>): T.Mode {
    if turns == [] then T.WallClock
    else LastMode(turns[|turns| - 1].given, ModeInput(turns[..|turns| - 1]))
  }

  ghost function CycleInput(turns: seq<Turn>): nat {
    if turns == [] then 10
    else LastCycle(turns[|turns| - 1].given, CycleInput(turns[..|turns| - 1]))
  }

  ghost predicate OnWallClock(turns: seq<Turn>) {
    forall k | 0 < k <= |turns| :: ModeInput(turns[..k]) == T.WallClock
  }

  /** From the first scan on it counts scans of one length. */
  ghost predicate CountingScans(turns: seq<Turn>, cycle: nat) {
    forall k | 0 < k <= |turns| :: ModeInput(turns[..k]) == T.ScanCycle && CycleInput(turns[..k]) == cycle
  }

  /** The timer with its inputs as given. */
  ghost function TonWith(s: T.TonState, given: seq<(string, Value)>): T.TonState {
    s.(input := LastBool(given, IN, s.input), pt := LastNat(given, PT, s.pt),
       mode := LastMode(given, s.mode), cycleTime := LastCycle(given, s.cycleTime))
  }

  lemma {:induction false} GiveTon(s: T.TonState, given: seq<(string, Value)>)
    ensures Give(Ton(s), given) == Ton(TonWith(s, given))
  {
    if given != [] {
      GiveTon(s, given[..|given| - 1]);
      TonTakesOne(TonWith(s, given[..|given| - 1]), given[|given| - 1].0, given[|given| - 1].1);
    }
  }

  lemma TonTakesOne(s: T.TonState, name: string, v: Value)
    ensures SetInput(Ton(s), name, v) ==
      Ton(s.(input := TakeBool(name, v, IN, s.input), pt := TakeNat(name, v, PT, s.pt),
             mode := TakeMode(name, v, s.mode),
             cycleTime := if name in CYCLE && IsUnsigned(v) then Max(v.i, 1) else s.cycleTime))
  {
    TimerNamesDiffer();
    LatchNothing(Ton(s));
    var d := Deliver(Ton(s), name, v);
    if d.Some? {
      LatchTon(s, d.value.0, d.value.1);
    }
  }

  lemma TimerNamesDiffer()
    ensures IN !! PT && IN !! MODE && IN !! CYCLE && PT !! MODE && PT !! CYCLE && MODE !! CYCLE
  {
    assert "IN"[0] != "PT"[0] && "in"[0] != "pt"[0];
  }

  lemma LatchTon(s: T.TonState, f: Field, x: Setting)
    ensures Latch(Ton(s), map[f := x]) ==
      Ton(if f == In && x.SetBool? then s.(input := x.b)
          else if f == Preset && x.SetNat? then s.(pt := x.n)
          else if f == ModeField && x.SetMode? then s.(mode := x.m)
          else if f == CycleTime && x.SetNat? then s.(cycleTime := x.n)
          else s)
  {
  }

  lemma TonRunOneMore(s: T.TonState, pt: nat, turns: seq<Turn>)
    requires turns != []
    ensures var n := |turns| - 1;
      T.TonRun(s, TimerScans(turns, pt))
      == T.TonStep(T.TonRun(s, TimerScans(turns[..n], pt)).(input := BoolInput(turns, IN),
                                                            pt := NatInput(turns, PT, pt)), turns[n].now)
  {
    var h := TimerScans(turns, pt);
    assert h[..|h| - 1] == TimerScans(turns[..|turns| - 1], pt);
  }

  /** On the wall clock the cycle time does not matter. */
  lemma CycleTimeIsIdle(a: T.TonState, b: T.TonState, now: int)
    requires a.mode == T.WallClock && a == b.(cycleTime := a.cycleTime)
    ensures T.TonStep(a, now) == T.TonStep(b, now).(cycleTime := a.cycleTime)
  {
  }

  lemma {:induction false} AfterTon(pt: nat, turns: seq<Turn>)
    requires OnWallClock(turns)
    ensures var b, s := After(Ton(T.TonFresh(pt)), turns), T.TonRun(T.TonFresh(pt), TimerScans(turns, pt));
      b.Ton? && b.ton == s.(cycleTime := b.ton.cycleTime) && s.mode == T.WallClock == ModeInput(turns)
      && s.input == BoolInput(turns, IN) && s.pt == NatInput(turns, PT, pt)
  {
    if turns != [] {
      var n := |turns| - 1;
      assert forall k | 0 < k <= n :: turns[..n][..k] == turns[..k];
      AfterTon(pt, turns[..n]);
      assert turns[..n + 1] == turns;
      var before := After(Ton(T.TonFresh(pt)), turns[..n]).ton;
      GiveTon(before, turns[n].given);
      TonRunOneMore(T.TonFresh(pt), pt, turns);
      var run := T.TonRun(T.TonFresh(pt), TimerScans(turns[..n], pt));
      CycleTimeIsIdle(TonWith(before, turns[n].given),
                      run.(input := BoolInput(turns, IN), pt := NatInput(turns, PT, pt)), turns[n].now);
    }
  }

  lemma {:induction false} AfterScanTon(pt: nat, turns: seq<Turn>, cycle: nat)
    requires turns != [] && CountingScans(turns, cycle)
    ensures var s := T.TonRun(T.TonScanFresh(pt, cycle), TimerScans(turns, pt));
      && cycle > 0 && After(Ton(T.TonFresh(pt)), turns) == Ton(s)
      && s.input == BoolInput(turns, IN) && s.pt == NatInput(turns, PT, pt)
      && s.mode == T.ScanCycle && s.cycleTime == cycle
  {
    var n := |turns| - 1;
    assert turns[..n + 1] == turns;
    TonRunOneMore(T.TonScanFresh(pt, cycle), pt, turns);
    if n > 0 {
      assert forall k | 0 < k <= n :: turns[..n][..k] == turns[..k];
      AfterScanTon(pt, turns[..n], cycle);
    } else {
      CycleIsPositive(turns[0].given, 10);
      assert turns[..0] == [] && CycleInput(turns) == LastCycle(turns[0].given, 10);
      assert ModeInput(turns) == LastMode(turns[0].given, T.WallClock);
      assert After(Ton(T.TonFresh(pt)), turns[..0]) == Ton(T.TonFresh(pt));
    }
    GiveTon(After(Ton(T.TonFresh(pt)), turns[..n]).ton, turns[n].given);
  }

  lemma {:induction false} CycleIsPositive(given: seq<(string, Value)>, old0: nat)
    requires old0 > 0
    ensures LastCycle(given, old0) > 0
  {
    if given != [] {
      CycleIsPositive(given[..|given| - 1], old0);
    }
  }

  lemma {:induction false} GiveTimer(b: Block, given: seq<(string, Value)>)
    requires b.Tof? || b.Tp?
    ensures b.Tof? ==>
      Give(b, given) == Tof(b.tof.(input := LastBool(given, IN, b.tof.input), pt := LastNat(given, PT, b.tof.pt)))
    ensures b.Tp? ==>
      Give(b, given) == Tp(b.tp.(input := LastBool(given, IN, b.tp.input), pt := LastNat(given, PT, b.tp.pt)))
  {
    if given != [] {
      GiveTimer(b, given[..|given| - 1]);
    }
  }

  lemma {:induction false} AfterTof(pt: nat, turns: seq<Turn>)
    ensures var s := T.TofRun(T.TofFresh(pt), TimerScans(turns, pt));
      && After(Tof(T.TofFresh(pt)), turns) == Tof(s)
      && s.input == BoolInput(turns, IN) && s.pt == NatInput(turns, PT, pt)
  {
    if turns != [] {
      var n := |turns| - 1;
      AfterTof(pt, turns[..n]);
      GiveTimer(After(Tof(T.TofFresh(pt)), turns[..n]), turns[n].given);
      assert TimerScans(turns, pt)[..n] == TimerScans(turns[..n], pt);
    }
  }

  lemma TpRunOneMore(s: T.TpState, pt: nat, turns: seq<Turn>)
    requires turns != []
    ensures var n := |turns| - 1;
      T.TpRun(s, TimerScans(turns, pt))
      == T.TpStep(T.TpRun(s, TimerScans(turns[..n], pt)).(input := BoolInput(turns, IN),
                                                          pt := NatInput(turns, PT, pt)), turns[n].now)
  {
    var h := TimerScans(turns, pt);
    assert h[..|h| - 1] == TimerScans(turns[..|turns| - 1], pt);
  }

  lemma {:induction false} AfterTp(pt: nat, turns: seq<Turn>)
    ensures var s := T.TpRun(T.TpFresh(pt), TimerScans(turns, pt));
      && After(Tp(T.TpFresh(pt)), turns) == Tp(s)
      && s.input == BoolInput(turns, IN) && s.pt == NatInput(turns, PT, pt)
  {
    if turns != [] {
      var n := |turns| - 1;
      AfterTp(pt, turns[..n]);
      TpRunOneMore(T.TpFresh(pt), pt, turns);
      GiveTimer(Tp(T.TpRun(T.TpFresh(pt), TimerScans(turns[..n], pt))), turns[n].given);
    }
  }

  // ---- Counters ----

  ghost function CounterScans(turns: seq<Turn>, pv: i32): (h: seq<Inputs>)
    ensures |h| == |turns|
  {
    if turns == [] then []
    else
      CounterScans(turns[..|turns| - 1], pv)
      + [Inputs(BoolInput(turns, CU), BoolInput(turns, CD), BoolInput(turns, R), BoolInput(turns, LD),
                IntInput(turns, PV, pv))]
  }

  lemma {:induction false} GiveCtu(s: CtuState, given: seq<(string, Value)>)
    ensures Give(Ctu(s), given)
            == Ctu(s.(cu := LastBool(given, CU, s.cu), reset := LastBool(given, R, s.reset),
                      pv := LastInt(given, PV, s.pv)))
  {
    if given != [] {
      GiveCtu(s, given[..|given| - 1]);
    }
  }

  lemma {:induction false} AfterCtu(pv: i32, turns: seq<Turn>)
    ensures var s := CtuRun(pv, CounterScans(turns, pv));
      && After(Ctu(CtuFresh(pv)), turns) == Ctu(s)
      && s.cu == BoolInput(turns, CU) && s.reset == BoolInput(turns, R) && s.pv == IntInput(turns, PV, pv)
  {
    if turns != [] {
      var n := |turns| - 1;
      AfterCtu(pv, turns[..n]);
      GiveCtu(CtuRun(pv, CounterScans(turns[..n], pv)), turns[n].given);
      assert CounterScans(turns, pv)[..n] == CounterScans(turns[..n], pv);
    }
  }

  lemma {:induction false} GiveCtd(s: CtdState, given: seq<(string, Value)>)
    ensures Give(Ctd(s), given)
            == Ctd(s.(cd := LastBool(given, CD, s.cd), load := LastBool(given, LD, s.load),
                      pv := LastInt(given, PV, s.pv)))
  {
    if given != [] {
      GiveCtd(s, given[..|given| - 1]);
    }
  }

  lemma {:induction false} AfterCtd(pv: i32, turns: seq<Turn>)
    ensures var s := CtdRun(pv, CounterScans(turns, pv));
      && After(Ctd(CtdFresh(pv)), turns) == Ctd(s)
      && s.cd == BoolInput(turns, CD) && s.load == BoolInput(turns, LD) && s.pv == IntInput(turns, PV, pv)
  {
    if turns != [] {
      var n := |turns| - 1;
      AfterCtd(pv, turns[..n]);
      GiveCtd(CtdRun(pv, CounterScans(turns[..n], pv)), turns[n].given);
      assert CounterScans(turns, pv)[..n] == CounterScans(turns[..n], pv);
    }
  }

  /** The counter with its inputs as given. */
  ghost function CtudWith(s: CtudState, given: seq<(string, Value)>): CtudState {
    s.(cu := LastBool(given, CU, s.cu), cd := LastBool(given, CD, s.cd), reset := LastBool(given, R, s.reset),
       load := LastBool(given, LD, s.load), pv := LastInt(given, PV, s.pv))
  }

  /** One value more. */
  ghost function CtudTakes(s: CtudState, name: string, v: Value): CtudState {
    s.(cu := TakeBool(name, v, CU, s.cu), cd := TakeBool(name, v, CD, s.cd),
       reset := TakeBool(name, v, R, s.reset), load := TakeBool(name, v, LD, s.load),
       pv := TakeInt(name, v, PV, s.pv))
  }

  lemma NamesDiffer()
    ensures CU !! CD && CU !! R && CU !! LD && CU !! PV && CD !! R && CD !! LD && CD !! PV
    ensures R !! LD && R !! PV && LD !! PV
  {
    assert "CU"[1] != "CD"[1] && "CU"[0] != "LD"[0] && "CU"[0] != "PV"[0] && "CD"[0] != "LD"[0];
  }

  lemma CtudTakesOne(s: CtudState, name: string, v: Value)
    ensures SetInput(Ctud(s), name, v) == Ctud(CtudTakes(s, name, v))
  {
    if v.BoolV? {
      CtudTakesBool(s, name, v);
    } else {
      CtudTakesOther(s, name, v);
    }
  }

  lemma CtudTakesBool(s: CtudState, name: string, v: Value)
    requires v.BoolV?
    ensures SetInput(Ctud(s), name, v) == Ctud(CtudTakes(s, name, v))
  {
    NamesDiffer();
    CtudDelivers(s, name, v);
    var d := Deliver(Ctud(s), name, v);
    if d.Some? {
      LatchCtud(s, d.value.0, d.value.1);
    }
  }

  lemma CtudTakesOther(s: CtudState, name: string, v: Value)
    requires !v.BoolV?
    ensures SetInput(Ctud(s), name, v) == Ctud(CtudTakes(s, name, v))
  {
    NamesDiffer();
    var d := Deliver(Ctud(s), name, v);
    if d.Some? {
      LatchCtud(s, d.value.0, d.value.1);
    }
  }

  lemma CtudDelivers(s: CtudState, name: string, v: Value)
    ensures var d := Deliver(Ctud(s), name, v);
      && (name in CU && v.BoolV? ==> d == Some((Field.Up, SetBool(v.b))))
      && (name in CD && v.BoolV? ==> d == Some((Field.Down, SetBool(v.b))))
      && (name in R && v.BoolV? ==> d == Some((ResetField, SetBool(v.b))))
      && (name in LD && v.BoolV? ==> d == Some((LoadField, SetBool(v.b))))
      && (v.BoolV? && name !in CU + CD + R + LD ==> d == None)
  {
    NamesDiffer();
  }

  lemma LatchCtud(s: CtudState, f: Field, x: Setting)
    ensures Latch(Ctud(s), map[f := x]) ==
      Ctud(if f == Field.Up && x.SetBool? then s.(cu := x.b)
           else if f == Field.Down && x.SetBool? then s.(cd := x.b)
           else if f == ResetField && x.SetBool? then s.(reset := x.b)
           else if f == LoadField && x.SetBool? then s.(load := x.b)
           else if f == Preset && x.SetInt? then s.(pv := x.v)
           else s)
  {
  }

  lemma CtudWithOneMore(s: CtudState, given: seq<(string, Value)>)
    requires given != []
    ensures var (name, v) := given[|given| - 1];
      CtudTakes(CtudWith(s, given[..|given| - 1]), name, v) == CtudWith(s, given)
  {
  }

  lemma {:induction false} GiveCtud(s: CtudState, given: seq<(string, Value)>)
    ensures Give(Ctud(s), given) == Ctud(CtudWith(s, given))
  {
    if given != [] {
      GiveCtud(s, given[..|given| - 1]);
      CtudTakesOne(CtudWith(s, given[..|given| - 1]), given[|given| - 1].0, given[|given| - 1].1);
      CtudWithOneMore(s, given);
    }
  }

  lemma {:induction false} AfterCtud(pv: i32, turns: seq<Turn>)
    ensures var s := CtudRun(pv, CounterScans(turns, pv));
      && After(Ctud(CtudFresh(pv)), turns) == Ctud(s)
      && s.cu == BoolInput(turns, CU) && s.cd == BoolInput(turns, CD) && s.reset == BoolInput(turns, R)
      && s.load == BoolInput(turns, LD) && s.pv == IntInput(turns, PV, pv)
  {
    if turns != [] {
      var n := |turns| - 1;
      AfterCtud(pv, turns[..n]);
      GiveCtud(CtudRun(pv, CounterScans(turns[..n], pv)), turns[n].given);
      assert CounterScans(turns, pv)[..n] == CounterScans(turns[..n], pv);
    }
  }

  // ---- Edge triggers ----

  ghost function ClockScans(turns: seq<Turn>): (h: seq<bool>)
    ensures |h| == |turns|
  {
    if turns == [] then [] else ClockScans(turns[..|turns| - 1]) + [BoolInput(turns, CLK)]
  }

  lemma {:induction false} GiveTrigger(b: Block, given: seq<(string, Value)>)
    requires b.RTrig? || b.FTrig?
    ensures b.RTrig? ==> Give(b, given) == RTrig(b.rtrig.(clk := LastBool(given, CLK, b.rtrig.clk)))
    ensures b.FTrig? ==> Give(b, given) == FTrig(b.ftrig.(clk := LastBool(given, CLK, b.ftrig.clk)))
  {
    if given != [] {
      GiveTrigger(b, given[..|given| - 1]);
    }
  }

  lemma {:induction false} AfterRTrig(turns: seq<Turn>)
    ensures var s := RisingRun(ClockScans(turns));
      After(RTrig(FRESH), turns) == RTrig(s) && s.clk == BoolInput(turns, CLK)
  {
    if turns != [] {
      var n := |turns| - 1;
      AfterRTrig(turns[..n]);
      GiveTrigger(RTrig(RisingRun(ClockScans(turns[..n]))), turns[n].given);
      assert ClockScans(turns)[..n] == ClockScans(turns[..n]);
    }
  }

  lemma {:induction false} AfterFTrig(turns: seq<Turn>)
    ensures var s := FallingRun(ClockScans(turns));
      After(FTrig(FRESH), turns) == FTrig(s) && s.clk == BoolInput(turns, CLK)
  {
    if turns != [] {
      var n := |turns| - 1;
      AfterFTrig(turns[..n]);
      GiveTrigger(FTrig(FallingRun(ClockScans(turns[..n]))), turns[n].given);
      assert ClockScans(turns)[..n] == ClockScans(turns[..n]);
    }
  }

  // ---- What is shown ----

  ghost predicate TonOn(h: seq<T.Scan>) {
    var k := T.Held(h, true);
    k > 0 && T.TimeUp(h, |h| - k)
  }

  ghost function TonTime(h: seq<T.Scan>): int {
    var k := T.Held(h, true);
    if k == 0 then 0 else Min(T.Since(h, |h| - k), h[|h| - 1].pt)
  }

  /** The input was on before, and its off-delay is not over. */
  ghost predicate TofOn(h: seq<T.Scan>) {
    var k := T.Held(h, false);
    k < |h| && (k > 0 ==> !T.TimeUp(h, |h| - k))
  }

  ghost function TofTime(h: seq<T.Scan>): int {
    var k := T.Held(h, false);
    if k == |h| || k == 0 then 0
    else if TofOn(h) then T.Since(h, |h| - k)
    else if k == 1 || TofOn(h[..|h| - 1]) then h[|h| - 1].pt
    else 0
  }

  ghost function TpTime(h: seq<T.Scan>): int {
    var p, n := T.PulseStart(h), |h| - 1;
    if p < 0 then 0
    else if T.Pulsing(h) then T.Since(h, p)
    else if p == n || !T.TimeUp(h[..n], p) then h[n].pt
    else 0
  }

  /** The two outputs of a timer, by name. */
  function TimerOutput(name: string, q: bool, et: int): Option<Value> {
    if name in {"Q", "q", "output"} then Some(BoolV(q))
    else if name in {"ET", "et", "elapsed"} then Some(IntV(et))
    else None
  }

  function CounterOutput(name: string, q: bool, cv: int): Option<Value> {
    if name in {"Q", "q", "output"} then Some(BoolV(q))
    else if name in {"CV", "cv", "count"} then Some(IntV(cv))
    else None
  }

  function UpDownOutput(name: string, qu: bool, qd: bool, cv: int): Option<Value> {
    if name in {"QU", "qu", "up_output"} then Some(BoolV(qu))
    else if name in {"QD", "qd", "down_output"} then Some(BoolV(qd))
    else if name in {"CV", "cv", "count"} then Some(IntV(cv))
    else None
  }

  function TriggerOutput(name: string, q: bool): Option<Value> {
    if name in {"Q", "q", "output"} then Some(BoolV(q)) else None
  }

  /** The preset in the last scan. */
  ghost function LastPreset(h: seq<Inputs>, pv: i32): i32 {
    if h == [] then pv else h[|h| - 1].pv
  }

  ghost function CtdCount(pv: i32, h: seq<Inputs>): int {
    Loaded(pv, h) - DownsSinceLoad(h)
  }

  ghost predicate Rises(clk: seq<bool>) {
    clk != [] && clk[|clk| - 1] && !Before(clk)
  }

  ghost predicate Falls(clk: seq<bool>) {
    clk != [] && !clk[|clk| - 1] && Before(clk)
  }

  /** What an output shows after a history of a new block.  A counter compares with its preset only in
      a scan; before the first, the down output of an up-down counter is on and all others are off. */
  ghost function Shows(t: string, params: Params, turns: seq<Turn>, name: string): Option<Value> {
    var pv := Or(params.pv, 10);
    var timer, counter := TimerScans(turns, Or(params.ptMs, 1000)), CounterScans(turns, pv);
    var preset, clk := LastPreset(counter, pv), ClockScans(turns);
    if t == "TON" then TimerOutput(name, TonOn(timer), TonTime(timer))
    else if t == "TOF" then TimerOutput(name, TofOn(timer), TofTime(timer))
    else if t == "TP" then TimerOutput(name, T.Pulsing(timer), TpTime(timer))
    else if t == "CTU" then
      var count := Min(UpsSinceReset(counter), I32_MAX);
      CounterOutput(name, turns != [] && count >= preset, count)
    else if t == "CTD" then
      CounterOutput(name, turns != [] && CtdCount(pv, counter) <= 0, Max(CtdCount(pv, counter), I32_MIN))
    else if t == "CTUD" then
      var count := Saturated(counter);
      UpDownOutput(name, turns != [] && count >= preset, turns == [] || count <= 0, count)
    else if t == "R_TRIG" then TriggerOutput(name, Rises(clk))
    else if t == "F_TRIG" then TriggerOutput(name, Falls(clk))
    else None
  }

  /** A timer's looks at the clock are in order, and a TON stays on the wall clock. */
  ghost predicate Usual(t: string, turns: seq<Turn>) {
    && (t in {"TON", "TOF", "TP"} ==> ClocksInOrder(turns))
    && (t == "TON" ==> OnWallClock(turns))
  }

  ghost predicate ClocksInOrder(turns: seq<Turn>) {
    forall i, j | 0 <= i < j < |turns| :: turns[i].now <= turns[j].now
  }

  lemma {:induction false} ScansAreInOrder(turns: seq<Turn>, pt: nat)
    requires ClocksInOrder(turns)
    ensures T.InOrder(TimerScans(turns, pt))
    ensures forall i | 0 <= i < |turns| :: TimerScans(turns, pt)[i].now == turns[i].now
  {
    if turns != [] {
      ScansAreInOrder(turns[..|turns| - 1], pt);
    }
  }

  lemma TonIs(pt: nat, h: seq<T.Scan>)
    requires T.InOrder(h)
    ensures T.TonRun(T.TonFresh(pt), h).output == TonOn(h) && T.TonRun(T.TonFresh(pt), h).et == TonTime(h)
  {
    if h != [] {
      T.TonMeasuresOnTime(pt, h);
    }
  }

  lemma TonShows(pt: nat, turns: seq<Turn>, name: string)
    requires ClocksInOrder(turns) && OnWallClock(turns)
    ensures var h := TimerScans(turns, pt);
      GetOutput(After(Ton(T.TonFresh(pt)), turns), name) == TimerOutput(name, TonOn(h), TonTime(h))
  {
    ScansAreInOrder(turns, pt);
    AfterTon(pt, turns);
    TonIs(pt, TimerScans(turns, pt));
  }

  /** Counting scans, by the number of scans the input has been on. */
  ghost predicate ScanTonOn(h: seq<T.Scan>, cycle: nat) {
    T.CountUp(h, |h| - T.Held(h, true), cycle)
  }

  ghost function ScanTonTime(h: seq<T.Scan>, cycle: nat): int {
    if h == [] then 0 else Min(T.Counted(T.Held(h, true), cycle), h[|h| - 1].pt)
  }

  lemma ScanTonIs(pt: nat, cycle: nat, h: seq<T.Scan>)
    requires h != [] && cycle > 0
    ensures T.TonRun(T.TonScanFresh(pt, cycle), h).output == ScanTonOn(h, cycle)
    ensures T.TonRun(T.TonScanFresh(pt, cycle), h).et == ScanTonTime(h, cycle)
  {
    T.TonCountsScans(pt, cycle, h);
  }

  /** The TON that counts scans. */
  lemma ScanTonShows(pt: nat, turns: seq<Turn>, cycle: nat, name: string)
    requires turns != [] && CountingScans(turns, cycle)
    ensures var h := TimerScans(turns, pt);
      GetOutput(After(Ton(T.TonFresh(pt)), turns), name)
      == TimerOutput(name, ScanTonOn(h, cycle), ScanTonTime(h, cycle))
  {
    AfterScanTon(pt, turns, cycle);
    ScanTonIs(pt, cycle, TimerScans(turns, pt));
  }

  lemma TofShows(pt: nat, turns: seq<Turn>, name: string)
    requires ClocksInOrder(turns)
    ensures var h := TimerScans(turns, pt);
      GetOutput(After(Tof(T.TofFresh(pt)), turns), name) == TimerOutput(name, TofOn(h), TofTime(h))
  {
    ScansAreInOrder(turns, pt);
    AfterTof(pt, turns);
    TofIs(pt, TimerScans(turns, pt));
  }

  lemma TofIs(pt: nat, h: seq<T.Scan>)
    requires T.InOrder(h)
    ensures T.TofRun(T.TofFresh(pt), h).output == TofOn(h) && T.TofRun(T.TofFresh(pt), h).et == TofTime(h)
  {
    if h != [] {
      T.TofMeasuresOffTime(pt, h);
      TofWasOn(h);
    }
  }

  /** Whether it was on before the last scan. */
  lemma TofWasOn(h: seq<T.Scan>)
    requires h != []
    ensures var k := T.Held(h, false);
      1 < k < |h| ==> (TofOn(h[..|h| - 1]) <==> !T.TimeUp(h[..|h| - 1], |h| - k))
  {
  }

  lemma TpIs(pt: nat, h: seq<T.Scan>)
    requires T.InOrder(h)
    ensures T.TpRun(T.TpFresh(pt), h).output == T.Pulsing(h) && T.TpRun(T.TpFresh(pt), h).et == TpTime(h)
  {
    if h != [] {
      T.TpMeasuresPulse(pt, h);
    }
  }

  lemma TpShows(pt: nat, turns: seq<Turn>, name: string)
    requires ClocksInOrder(turns)
    ensures var h := TimerScans(turns, pt);
      GetOutput(After(Tp(T.TpFresh(pt)), turns), name) == TimerOutput(name, T.Pulsing(h), TpTime(h))
  {
    ScansAreInOrder(turns, pt);
    AfterTp(pt, turns);
    TpIs(pt, TimerScans(turns, pt));
  }

  lemma CtuShows(pv: i32, turns: seq<Turn>, name: string)
    ensures var h := CounterScans(turns, pv);
      var count := Min(UpsSinceReset(h), I32_MAX);
      GetOutput(After(Ctu(CtuFresh(pv)), turns), name)
      == CounterOutput(name, turns != [] && count >= LastPreset(h, pv), count)
  {
    AfterCtu(pv, turns);
    CtuCountsEdges(pv, CounterScans(turns, pv));
  }

  lemma CtdShows(pv: i32, turns: seq<Turn>, name: string)
    ensures var count := CtdCount(pv, CounterScans(turns, pv));
      GetOutput(After(Ctd(CtdFresh(pv)), turns), name)
      == CounterOutput(name, turns != [] && count <= 0, Max(count, I32_MIN))
  {
    AfterCtd(pv, turns);
    CtdCountsEdges(pv, CounterScans(turns, pv));
  }

  lemma UpDownShows(pv: i32, turns: seq<Turn>, name: string)
    ensures var h := CounterScans(turns, pv);
      GetOutput(After(Ctud(CtudFresh(pv)), turns), name)
      == UpDownOutput(name, turns != [] && Saturated(h) >= LastPreset(h, pv), turns == [] || Saturated(h) <= 0,
                      Saturated(h))
  {
    AfterCtud(pv, turns);
    CtudShows(pv, CounterScans(turns, pv));
  }

  lemma TriggerShows(turns: seq<Turn>, name: string)
    ensures GetOutput(After(RTrig(FRESH), turns), name) == TriggerOutput(name, Rises(ClockScans(turns)))
    ensures GetOutput(After(FTrig(FRESH), turns), name) == TriggerOutput(name, Falls(ClockScans(turns)))
  {
    AfterRTrig(turns);
    AfterFTrig(turns);
    if turns != [] {
      FiresOnEdges(ClockScans(turns));
    }
  }

  // ---- From the type's name ----

  const TYPES := {"TON", "TOF", "TP", "CTU", "CTD", "CTUD", "R_TRIG", "F_TRIG"}

  /** The two differ at most in the case of their letters. */
  ghost predicate SameLetters(a: string, b: string) {
    && |a| == |b|
    && forall i | 0 <= i < |a| ::
         a[i] == b[i] || ('a' <= a[i] <= 'z' && a[i] as int - b[i] as int == 32)
  }

  /** For any name without small letters, as those of the types are. */
  lemma UpperOf(a: string, t: string)
    requires forall i | 0 <= i < |t| :: !('a' <= t[i] <= 'z')
    ensures Upper(a) == t <==> SameLetters(a, t)
  {
    if SameLetters(a, t) {
      assert forall i | 0 <= i < |t| :: Upper(a)[i] == t[i];
    }
  }

  ghost function Made(t: string, params: Params): Block {
    var pt, pv := Or(params.ptMs, 1000), Or(params.pv, 10);
    if t == "TON" then Ton(T.TonFresh(pt))
    else if t == "TOF" then Tof(T.TofFresh(pt))
    else if t == "TP" then Tp(T.TpFresh(pt))
    else if t == "CTU" then Ctu(CtuFresh(pv))
    else if t == "CTD" then Ctd(CtdFresh(pv))
    else if t == "CTUD" then Ctud(CtudFresh(pv))
    else if t == "R_TRIG" then RTrig(FRESH)
    else FTrig(FRESH)
  }

  lemma MadeByName(fbType: string, t: string, params: Params)
    requires t in TYPES && SameLetters(fbType, t)
    ensures Instantiate(fbType, params) == Some(Made(t, params))
  {
    UpperOf(fbType, t);
  }

  lemma TimersShow(t: string, params: Params, turns: seq<Turn>, name: string)
    requires t in {"TON", "TOF", "TP"} && Usual(t, turns)
    ensures GetOutput(After(Made(t, params), turns), name) == Shows(t, params, turns, name)
  {
    var pt := Or(params.ptMs, 1000);
    if t == "TON" {
      TonShows(pt, turns, name);
    } else if t == "TOF" {
      TofShows(pt, turns, name);
    } else {
      TpShows(pt, turns, name);
    }
  }

  lemma CountersShow(t: string, params: Params, turns: seq<Turn>, name: string)
    requires t in {"CTU", "CTD", "CTUD"}
    ensures GetOutput(After(Made(t, params), turns), name) == Shows(t, params, turns, name)
  {
    var pv := Or(params.pv, 10);
    if t == "CTU" {
      CtuShows(pv, turns, name);
    } else if t == "CTD" {
      CtdShows(pv, turns, name);
    } else {
      UpDownShows(pv, turns, name);
    }
  }

  lemma TriggersShow(t: string, params: Params, turns: seq<Turn>, name: string)
    requires t in {"R_TRIG", "F_TRIG"}
    ensures GetOutput(After(Made(t, params), turns), name) == Shows(t, params, turns, name)
  {
    TriggerShows(turns, name);
  }

  lemma MadeShows(t: string, params: Params, turns: seq<Turn>, name: string)
    requires t in TYPES && Usual(t, turns)
    ensures GetOutput(After(Made(t, params), turns), name) == Shows(t, params, turns, name)
  {
    if t in {"TON", "TOF", "TP"} {
      TimersShow(t, params, turns, name);
    } else if t in {"CTU", "CTD", "CTUD"} {
      CountersShow(t, params, turns, name);
    } else {
      TriggersShow(t, params, turns, name);
    }
  }

  /** Every block made by the name of its type, in capitals or not, shows over every history of
      values given to its inputs by name what its type promises, under each name of each output. */
  lemma BlocksShow(fbType: string, t: string, params: Params, turns: seq<Turn>, name: string)
    requires t in TYPES && SameLetters(fbType, t) && Usual(t, turns)
    ensures var b := Instantiate(fbType, params);
      b.Some? && GetOutput(After(b.value, turns), name) == Shows(t, params, turns, name)
  {
    MadeByName(fbType, t, params);
    MadeShows(t, params, turns, name);
  }

  /** Any other name makes no block. */
  lemma OthersAreUnknown(fbType: string, params: Params)
    ensures Instantiate(fbType, params) == None <==> forall t | t in TYPES :: !SameLetters(fbType, t)
  {
    forall t | t in TYPES ensures Upper(fbType) == t <==> SameLetters(fbType, t) {
      UpperOf(fbType, t);
    }
  }
}
