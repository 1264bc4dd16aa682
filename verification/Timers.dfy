/** Timer blocks (`src/scripting/function_blocks/timers.rs`).  Clock samples are milliseconds on
    the monotonic clock; a block samples it once in each scan. */
module Timers {
  import opened Wrappers

  datatype Mode = WallClock | ScanCycle

  datatype TonState = TonState(
    pt: nat, et: nat, input: bool, output: bool, start: Option<int>, prevInput: bool,
    mode: Mode, scanCount: nat, cycleTime: nat)

  datatype TofState = TofState(
    pt: nat, et: nat, input: bool, output: bool, start: Option<int>, prevInput: bool)

  datatype TpState = TpState(
    pt: nat, et: nat, input: bool, output: bool, start: Option<int>, prevInput: bool, pulseActive: bool)

  const DEFAULT_CYCLE_TIME_MS: nat := 10

  function TonFresh(pt: nat): TonState {
    TonState(pt, 0, false, false, None, false, WallClock, 0, DEFAULT_CYCLE_TIME_MS)
  }

  function TonScanFresh(pt: nat, cycleTime: nat): TonState {
    TonFresh(pt).(mode := ScanCycle, cycleTime := Max(cycleTime, 1))
  }

  function TofFresh(pt: nat): TofState {
    TofState(pt, 0, false, false, None, false)
  }

  function TpFresh(pt: nat): TpState {
    TpState(pt, 0, false, false, None, false, false)
  }

  function Elapsed(start: int, now: int): nat {
    Max(now - start, 0)
  }

  function TonStep(s: TonState, now: int): TonState {
    if !s.input then
      s.(start := None, scanCount := 0, et := 0, output := false, prevInput := false)
    else
      var rising := !s.prevInput;
      var start := if rising && s.mode == WallClock then Some(now) else s.start;
      var counted := if rising && s.mode == ScanCycle then 0 else s.scanCount;
      var scanCount := if s.mode == ScanCycle then counted + 1 else counted;
      var et :=
        if s.mode == ScanCycle then scanCount * s.cycleTime
        else if start.Some? then Elapsed(start.value, now)
        else if rising then 0 else s.et;
      s.(start := start, scanCount := scanCount, et := Min(et, s.pt),
         output := s.output || et >= s.pt, prevInput := true)
  }

  function TofStep(s: TofState, now: int): TofState {
    if s.input then s.(output := true, start := None, et := 0, prevInput := true)
    else
      var start := if s.prevInput then Some(now) else s.start;
      if start.Some? then
        var et := Elapsed(start.value, now);
        if et >= s.pt then s.(output := false, et := s.pt, start := None, prevInput := false)
        else s.(et := et, start := start, prevInput := false)
      else s.(et := (if s.output then s.et else 0), prevInput := false)
  }

  function TpStep(s: TpState, now: int): TpState {
    var begins := s.input && !s.prevInput && !s.pulseActive;
    var b := if begins then s.(start := Some(now), pulseActive := true, output := true, et := 0) else s;
    if !b.pulseActive then b.(et := 0, prevInput := s.input)
    else if b.start.None? then b.(prevInput := s.input)
    else
      var et := Elapsed(b.start.value, now);
      if et >= b.pt
      then b.(output := false, et := b.pt, pulseActive := false, start := None, prevInput := s.input)
      else b.(et := et, prevInput := s.input)
  }

  class TON {
    var ptMs: nat
    var etMs: nat
    var input: bool
    var output: bool
    var startInstant: Option<int>
    var prevInput: bool
    var mode: Mode
    var scanCount: nat
    var cycleTimeMs: nat

    function State(): TonState
      reads this
    {
      TonState(ptMs, etMs, input, output, startInstant, prevInput, mode, scanCount, cycleTimeMs)
    }

    constructor (pt: nat)
      ensures State() == TonFresh(pt)
    {
      ptMs, etMs, input, output, startInstant, prevInput := pt, 0, false, false, None, false;
      mode, scanCount, cycleTimeMs := WallClock, 0, DEFAULT_CYCLE_TIME_MS;
    }

    constructor WithScanCycle(pt: nat, cycleTime: nat)
      ensures State() == TonScanFresh(pt, cycleTime)
    {
      ptMs, etMs, input, output, startInstant, prevInput := pt, 0, false, false, None, false;
      mode, scanCount, cycleTimeMs := ScanCycle, 0, Max(cycleTime, 1);
    }

    method Execute(now: int)
      modifies this
      ensures State() == TonStep(old(State()), now)
    {
      if input {
        if !prevInput {
          match mode
          case WallClock => startInstant := Some(now);
          case ScanCycle => scanCount := 0;
          etMs := 0;
        }
        match mode {
          case WallClock =>
            if startInstant.Some? {
              etMs := Elapsed(startInstant.value, now);
            }
          case ScanCycle =>
            scanCount := scanCount + 1;
            etMs := scanCount * cycleTimeMs;
        }
        if etMs >= ptMs {
          output := true;
          etMs := ptMs;
        }
      } else {
        startInstant := None;
        scanCount := 0;
        etMs := 0;
        output := false;
      }
      prevInput := input;
    }

    /** Only a wall-clock timer that was saved in the middle of its time is started again; in any
        other the start it had stays. */
    method Restore(saved: TonState, now: int)
      modifies this
      ensures var restored := TonRestore(saved, now);
        State() == if restored.start.Some? then restored else restored.(start := old(startInstant))
    {
      ptMs, etMs, input, output, prevInput := saved.pt, saved.et, saved.input, saved.output, saved.prevInput;
      mode, scanCount, cycleTimeMs := saved.mode, saved.scanCount, Max(saved.cycleTime, 1);
      if mode == WallClock && input && etMs > 0 && etMs < ptMs {
        startInstant := Some(now - etMs);
      }
    }
  }

  class TOF {
    var ptMs: nat
    var etMs: nat
    var input: bool
    var output: bool
    var startInstant: Option<int>
    var prevInput: bool

    function State(): TofState
      reads this
    {
      TofState(ptMs, etMs, input, output, startInstant, prevInput)
    }

    constructor (pt: nat)
      ensures State() == TofFresh(pt)
    {
      ptMs, etMs, input, output, startInstant, prevInput := pt, 0, false, false, None, false;
    }

    method Execute(now: int)
      modifies this
      ensures State() == TofStep(old(State()), now)
    {
      if input {
        output := true;
        startInstant := None;
        etMs := 0;
      } else {
        if prevInput {
          startInstant := Some(now);
          etMs := 0;
        }
        if startInstant.Some? {
          etMs := Elapsed(startInstant.value, now);
          if etMs >= ptMs {
            output := false;
            etMs := ptMs;
            startInstant := None;
          }
        } else if !output {
          etMs := 0;
        }
      }
      prevInput := input;
    }

    method Restore(saved: TofState, now: int)
      modifies this
      ensures var restored := TofRestore(saved, now);
        State() == if restored.start.Some? then restored else restored.(start := old(startInstant))
    {
      ptMs, etMs, input, output, prevInput := saved.pt, saved.et, saved.input, saved.output, saved.prevInput;
      if !input && output && etMs > 0 && etMs < ptMs {
        startInstant := Some(now - etMs);
      }
    }
  }

  class TP {
    var ptMs: nat
    var etMs: nat
    var input: bool
    var output: bool
    var startInstant: Option<int>
    var prevInput: bool
    var pulseActive: bool

    function State(): TpState
      reads this
    {
      TpState(ptMs, etMs, input, output, startInstant, prevInput, pulseActive)
    }

    constructor (pt: nat)
      ensures State() == TpFresh(pt)
    {
      ptMs, etMs, input, output, startInstant, prevInput := pt, 0, false, false, None, false;
      pulseActive := false;
    }

    method Execute(now: int)
      modifies this
      ensures State() == TpStep(old(State()), now)
    {
      if input && !prevInput && !pulseActive {
        startInstant := Some(now);
        pulseActive := true;
        output := true;
        etMs := 0;
      }
      if pulseActive {
        if startInstant.Some? {
          etMs := Elapsed(startInstant.value, now);
          if etMs >= ptMs {
            output := false;
            etMs := ptMs;
            pulseActive := false;
            startInstant := None;
          }
        }
      } else {
        etMs := 0;
      }
      prevInput := input;
    }

    method Restore(saved: TpState, now: int)
      modifies this
      ensures var restored := TpRestore(saved, now);
        State() == if restored.start.Some? then restored else restored.(start := old(startInstant))
    {
      ptMs, etMs, input, output, prevInput := saved.pt, saved.et, saved.input, saved.output, saved.prevInput;
      pulseActive := saved.pulseActive;
      if pulseActive && etMs > 0 && etMs < ptMs {
        startInstant := Some(now - etMs);
      }
    }
  }

  // ---- Saving and restoring ----

  /** A fresh timer after taking over the saved fields.  The start is not among them. */
  function TonRestore(saved: TonState, now: int): TonState {
    saved.(
      cycleTime := Max(saved.cycleTime, 1),
      start := if saved.mode == WallClock && saved.input && 0 < saved.et < saved.pt
               then Some(now - saved.et) else None)
  }

  function TofRestore(saved: TofState, now: int): TofState {
    saved.(start := if !saved.input && saved.output && 0 < saved.et < saved.pt
                    then Some(now - saved.et) else None)
  }

  function TpRestore(saved: TpState, now: int): TpState {
    saved.(start := if saved.pulseActive && 0 < saved.et < saved.pt
                    then Some(now - saved.et) else None)
  }

  // ---- Histories ----

  /** One scan: the input and the preset, which may change like the input, and the clock. */
  datatype Scan = Scan(input: bool, pt: nat, now: int)

  ghost predicate InOrder(h: seq<Scan>) {
    forall i, j | 0 <= i < j < |h| :: h[i].now <= h[j].now
  }

  ghost function TonRun(s: TonState, h: seq<Scan>): TonState {
    if h == [] then s
    else
      var x := h[|h| - 1];
      TonStep(TonRun(s, h[..|h| - 1]).(input := x.input, pt := x.pt), x.now)
  }

  ghost function TofRun(s: TofState, h: seq<Scan>): TofState {
    if h == [] then s
    else
      var x := h[|h| - 1];
      TofStep(TofRun(s, h[..|h| - 1]).(input := x.input, pt := x.pt), x.now)
  }

  ghost function TpRun(s: TpState, h: seq<Scan>): TpState {
    if h == [] then s
    else
      var x := h[|h| - 1];
      TpStep(TpRun(s, h[..|h| - 1]).(input := x.input, pt := x.pt), x.now)
  }

  /** For how many scans, up to and with the last, the input has had the value `v`. */
  ghost function Held(h: seq<Scan>, v: bool): (k: nat)
    ensures k <= |h|
    ensures forall i | |h| - k <= i < |h| :: h[i].input == v
    ensures k < |h| ==> h[|h| - k - 1].input != v
  {
    if h == [] || h[|h| - 1].input != v then 0 else Held(h[..|h| - 1], v) + 1
  }

  /** The time from scan `p` to the last. */
  ghost function Since(h: seq<Scan>, p: nat): int
    requires p < |h|
  {
    h[|h| - 1].now - h[p].now
  }

  /** Some scan from `p` on found the time since `p` to be its preset or more. */
  ghost predicate TimeUp(h: seq<Scan>, p: nat)
    requires p < |h|
  {
    exists i | p <= i < |h| :: h[i].now - h[p].now >= h[i].pt
  }

  lemma TimeUpOneMore(h: seq<Scan>, p: nat)
    requires p < |h|
    ensures TimeUp(h, p) <==> Since(h, p) >= h[|h| - 1].pt || (p < |h| - 1 && TimeUp(h[..|h| - 1], p))
  {
    var earlier := h[..|h| - 1];
    assert forall i | 0 <= i < |earlier| :: h[i] == earlier[i];
  }

  /** Under one preset it is up exactly when the last scan finds it so. */
  lemma TimeUpWithOnePreset(h: seq<Scan>, p: nat)
    requires InOrder(h) && p < |h| && forall i | p <= i < |h| :: h[i].pt == h[p].pt
    ensures TimeUp(h, p) <==> Since(h, p) >= h[p].pt
  {
    assert h[|h| - 1].pt == h[p].pt;
  }

  // ---- TON ----

  /** Counting `cycle` for each scan from `p` on, some scan reached its preset. */
  ghost predicate CountUp(h: seq<Scan>, p: nat, cycle: nat)
    requires p <= |h|
  {
    exists i | p <= i < |h| :: Counted(i - p + 1, cycle) >= h[i].pt
  }

  ghost function Counted(scans: nat, cycle: nat): nat {
    scans * cycle
  }

  /** Counting scans: ET is the number of scans the input has been on, times the cycle time, up
      to the preset, and Q is on once some scan gets there. */
  lemma {:induction false} TonCountsScans(pt: nat, cycleTime: nat, h: seq<Scan>)
    requires h != []
    ensures var s, k, cycle := TonRun(TonScanFresh(pt, cycleTime), h), Held(h, true), Max(cycleTime, 1);
      var x := h[|h| - 1];
      s == TonState(x.pt, Min(Counted(k, cycle), x.pt), x.input, CountUp(h, |h| - k, cycle), None,
                    k > 0, ScanCycle, k, cycle)
  {
    var k, earlier := Held(h, true), h[..|h| - 1];
    assert forall i | 0 <= i < |earlier| :: h[i] == earlier[i];
    if earlier != [] {
      TonCountsScans(pt, cycleTime, earlier);
    }
    if k > 0 {
      assert Held(earlier, true) == k - 1;
      CountUpOneMore(h, |h| - k, Max(cycleTime, 1));
    }
  }

  lemma CountUpOneMore(h: seq<Scan>, p: nat, cycle: nat)
    requires p < |h|
    ensures CountUp(h, p, cycle)
            <==> Counted(|h| - p, cycle) >= h[|h| - 1].pt || CountUp(h[..|h| - 1], p, cycle)
  {
    var earlier := h[..|h| - 1];
    assert forall i | 0 <= i < |earlier| :: h[i] == earlier[i];
  }

  /** On the wall clock: ET and Q depend only on the time since the input came on. */
  lemma {:induction false} TonMeasuresOnTime(pt: nat, h: seq<Scan>)
    requires InOrder(h) && h != []
    ensures var s, k := TonRun(TonFresh(pt), h), Held(h, true);
      && s.pt == h[|h| - 1].pt && s.input == h[|h| - 1].input && s.mode == WallClock && s.prevInput == (k > 0)
      && (if k == 0 then s.et == 0 && !s.output && s.start == None
          else
            var p := |h| - k;
            && s.start == Some(h[p].now)
            && s.et == Min(Since(h, p), s.pt)
            && (s.output <==> TimeUp(h, p)))
  {
    var k := Held(h, true);
    if |h| > 1 {
      TonMeasuresOnTime(pt, h[..|h| - 1]);
    }
    if k > 0 {
      TimeUpOneMore(h, |h| - k);
    }
  }

  // ---- TOF ----

  /** Q is on while the input is, and after it went off until the preset is over; ET is the time
      since then, the preset on the scan that ends it, and zero (not the preset, as section
      6.6.3.5 of IEC 61131-3 has it) on the scans after that. */
  lemma {:induction false} TofMeasuresOffTime(pt: nat, h: seq<Scan>)
    requires InOrder(h) && h != []
    ensures var s, k, n := TofRun(TofFresh(pt), h), Held(h, false), |h| - 1;
      && s.pt == h[n].pt && s.input == h[n].input && s.prevInput == (k == 0)
      && (if k == |h| then !s.output && s.et == 0 && s.start == None
          else if k == 0 then s.output && s.et == 0 && s.start == None
          else
            var off := |h| - k;
            && (s.output <==> !TimeUp(h, off))
            && s.start == (if s.output then Some(h[off].now) else None)
            && s.et == (if s.output then Since(h, off)
                        else if k == 1 || !TimeUp(h[..n], off) then s.pt else 0))
  {
    var k := Held(h, false);
    if |h| > 1 {
      TofMeasuresOffTime(pt, h[..|h| - 1]);
    }
    if 0 < k < |h| {
      TimeUpOneMore(h, |h| - k);
    }
  }

  // ---- TP ----

  /** The scan that began the latest pulse, or -1: one where the input came on while no earlier
      pulse was still seen running on the scan before. */
  ghost function PulseStart(h: seq<Scan>): (p: int)
    ensures -1 <= p < |h|
  {
    if h == [] then -1
    else
      var n := |h| - 1;
      var p := PulseStart(h[..n]);
      if h[n].input && (n > 0 ==> !h[n - 1].input) && !(p >= 0 && !TimeUp(h[..n], p)) then n else p
  }

  /** A pulse began and its time is not up. */
  ghost predicate Pulsing(h: seq<Scan>) {
    PulseStart(h) >= 0 && !TimeUp(h, PulseStart(h))
  }

  /** Q is on from the start of a pulse until its preset is over. */
  lemma {:induction false} TpMeasuresPulse(pt: nat, h: seq<Scan>)
    requires InOrder(h) && h != []
    ensures var s, p, n := TpRun(TpFresh(pt), h), PulseStart(h), |h| - 1;
      && s.pt == h[n].pt && s.input == s.prevInput == h[n].input
      && s.output == s.pulseActive == Pulsing(h)
      && s.start == (if s.output then Some(h[p].now) else None)
      && s.et == (if s.output then Since(h, p) else if p >= 0 && (p == n || !TimeUp(h[..n], p)) then s.pt else 0)
  {
    var p := PulseStart(h);
    if |h| > 1 {
      TpMeasuresPulse(pt, h[..|h| - 1]);
    } else {
      assert TpRun(TpFresh(pt), h[..0]) == TpFresh(pt);
    }
    if p >= 0 {
      TimeUpOneMore(h, p);
    }
  }

  /** A pulse, once begun, takes no notice of its input: after any scans before its end, with
      any inputs, Q and ET are what the clock makes them, and the first scan at or after the
      end turns Q off, even if the input comes on in that scan. */
  lemma {:induction false} TpIgnoresInputs(s: TpState, t0: int, h: seq<Scan>)
    requires s.pulseActive && s.output && s.start == Some(t0) && h != []
    requires forall i | 0 <= i < |h| :: t0 <= h[i].now
    requires forall i | 0 <= i < |h| - 1 :: h[i].now < t0 + h[i].pt
    ensures var s', x := TpRun(s, h), h[|h| - 1];
      if x.now - t0 < x.pt
      then s'.output && s'.et == x.now - t0 && s'.pulseActive && s'.start == Some(t0) && s'.pt == x.pt
      else !s'.output && s'.et == x.pt && !s'.pulseActive
  {
    var earlier := h[..|h| - 1];
    if earlier != [] {
      TpIgnoresInputs(s, t0, earlier);
    } else {
      assert TpRun(s, earlier) == s;
    }
  }

  /** Two pulses never overlap: between the starts of successive pulses a scan has passed the
      end of the first. */
  lemma {:induction false} PulsesAreApart(h: seq<Scan>, k: nat)
    requires InOrder(h) && k < |h|
    requires 0 <= PulseStart(h[..k]) < PulseStart(h)
    ensures var p, q := PulseStart(h[..k]), PulseStart(h);
            exists i | p <= i < q :: h[i].now >= h[p].now + h[i].pt
    decreases |h|
  {
    var earlier := h[..|h| - 1];
    assert earlier[..k] == h[..k] && earlier[..|earlier|] == earlier;
    PulseStartGrows(earlier, k);
    var p := PulseStart(h[..k]);
    if PulseStart(earlier) > p {
      PulsesAreApart(earlier, k);
      var i :| p <= i < PulseStart(earlier) && earlier[i].now >= earlier[p].now + earlier[i].pt;
      assert h[i].now >= h[p].now + h[i].pt;
    } else {
      var i :| p <= i < |earlier| && earlier[i].now - earlier[p].now >= earlier[i].pt;
      assert h[i].now >= h[p].now + h[i].pt;
    }
  }

  lemma {:induction false} PulseStartGrows(h: seq<Scan>, k: nat)
    requires k <= |h|
    ensures PulseStart(h[..k]) <= PulseStart(h)
    decreases |h|
  {
    if k < |h| {
      var earlier := h[..|h| - 1];
      assert earlier[..k] == h[..k];
      PulseStartGrows(earlier, k);
    } else {
      assert h[..k] == h;
    }
  }

  // ---- After a restart ----

  ghost predicate From(h: seq<Scan>, now: int) {
    InOrder(h) && forall i | 0 <= i < |h| :: h[i].now >= now
  }

  ghost predicate HeldAt(h: seq<Scan>, v: bool) {
    forall i | 0 <= i < |h| :: h[i].input == v
  }

  /** With `et` gone by at `now`, some scan found its preset to be over. */
  ghost predicate UpSince(h: seq<Scan>, et: nat, now: int) {
    exists i | 0 <= i < |h| :: et + h[i].now - now >= h[i].pt
  }

  lemma UpSinceOneMore(h: seq<Scan>, et: nat, now: int)
    requires h != []
    ensures var x := h[|h| - 1];
      UpSince(h, et, now) <==> et + x.now - now >= x.pt || UpSince(h[..|h| - 1], et, now)
  {
    var earlier := h[..|h| - 1];
    assert forall i | 0 <= i < |earlier| :: h[i] == earlier[i];
  }

  /** A TON counting scans goes on as if nothing had happened. */
  lemma {:induction false} TonScanSurvivesRestart(s: TonState, now: int, h: seq<Scan>)
    requires s.mode == ScanCycle && s.cycleTime >= 1
    ensures var restored, kept := TonRun(TonRestore(s, now), h), TonRun(s, h);
      restored.(start := None) == kept.(start := None) && kept.mode == ScanCycle
  {
    if h != [] {
      TonScanSurvivesRestart(s, now, h[..|h| - 1]);
    }
  }

  /** A wall-clock TON saved after a scan, with its input on. */
  ghost predicate TonTiming(s: TonState) {
    s.mode == WallClock && s.input && s.prevInput && s.et <= s.pt && (s.et == s.pt ==> s.output)
  }

  lemma {:induction false} TonGoesOn(s: TonState, now: int, h: seq<Scan>)
    requires TonTiming(s) && 0 < s.et < s.pt && From(h, now) && HeldAt(h, true) && h != []
    ensures var s', x := TonRun(TonRestore(s, now), h), h[|h| - 1];
      && s'.mode == WallClock && s'.prevInput && s'.start == Some(now - s.et)
      && s'.et == Min(s.et + x.now - now, x.pt)
      && (s'.output <==> s.output || UpSince(h, s.et, now))
  {
    if |h| > 1 {
      TonGoesOn(s, now, h[..|h| - 1]);
    } else {
      assert TonRun(TonRestore(s, now), h[..0]) == TonRestore(s, now);
    }
    UpSinceOneMore(h, s.et, now);
  }

  lemma {:induction false} TonStaysOn(s: TonState, h: seq<Scan>)
    requires s.mode == WallClock && s.prevInput && s.output && HeldAt(h, true)
    ensures var s' := TonRun(s, h); s'.mode == WallClock && s'.prevInput && s'.output
  {
    if h != [] {
      TonStaysOn(s, h[..|h| - 1]);
    }
  }

  /** Restored with its input still on, whatever its preset does, it is on once the time gone by
      before and after the restart is its preset, in every case but one: saved with ET at zero
      before it was on, it misses the moment. */
  lemma TonFiresOnTimeExactly(s: TonState, now: int)
    requires TonTiming(s)
    ensures (forall h: seq<Scan> | From(h, now) && HeldAt(h, true) && h != [] ::
               TonRun(TonRestore(s, now), h).output <==> s.output || UpSince(h, s.et, now))
      <==> s.et > 0 || s.output
  {
    if s.et > 0 || s.output {
      forall h: seq<Scan> | From(h, now) && HeldAt(h, true) && h != []
        ensures TonRun(TonRestore(s, now), h).output <==> s.output || UpSince(h, s.et, now)
      {
        if s.output {
          TonStaysOn(TonRestore(s, now), h);
        } else {
          TonGoesOn(s, now, h);
        }
      }
    } else {
      TonNeverFires(s, now, now + s.pt);
      var late := [Scan(true, s.pt, now + s.pt)];
      assert late[0].now - now >= late[0].pt;
      assert From(late, now) && HeldAt(late, true) && UpSince(late, s.et, now);
    }
  }

  /** That one never fires, as long as its preset stays positive. */
  lemma TonNeverFires(s: TonState, now: int, later: int)
    requires TonTiming(s) && s.et == 0 && !s.output
    ensures forall h: seq<Scan> | HeldAt(h, true) && forall i | 0 <= i < |h| :: h[i].pt > 0 ::
              !TonRun(TonRestore(s, now), h).output
    ensures !TonRun(TonRestore(s, now), [Scan(true, s.pt, later)]).output
  {
    forall h: seq<Scan> | HeldAt(h, true) && forall i | 0 <= i < |h| :: h[i].pt > 0
      ensures !TonRun(TonRestore(s, now), h).output
    {
      TonStandsStill(TonRestore(s, now), h);
    }
    var one := [Scan(true, s.pt, later)];
    assert HeldAt(one, true) && one[0].pt > 0;
  }

  lemma {:induction false} TonStandsStill(s: TonState, h: seq<Scan>)
    requires s.mode == WallClock && s.prevInput && s.start == None && s.et == 0 && !s.output
    requires HeldAt(h, true) && forall i | 0 <= i < |h| :: h[i].pt > 0
    ensures var s' := TonRun(s, h);
      s'.mode == WallClock && s'.prevInput && s'.start == None && s'.et == 0 && !s'.output
  {
    if h != [] {
      TonStandsStill(s, h[..|h| - 1]);
    }
  }

  /** One that had finished shows its preset as long as that stays as it is and its input on. */
  lemma {:induction false} TonStaysFinished(s: TonState, now: int, h: seq<Scan>)
    requires TonTiming(s) && s.et == s.pt && HeldAt(h, true) && forall i | 0 <= i < |h| :: h[i].pt == s.pt
    ensures var s' := TonRun(TonRestore(s, now), h);
      && s'.mode == WallClock && s'.prevInput && s'.start == None
      && s'.output && s'.et == s'.pt == s.pt
  {
    if h != [] {
      TonStaysFinished(s, now, h[..|h| - 1]);
    }
  }

  /** A TOF saved after a scan, between its input going off and its output. */
  ghost predicate TofTiming(s: TofState) {
    !s.input && !s.prevInput && s.output && s.et < s.pt
  }

  lemma {:induction false} TofGoesOn(s: TofState, now: int, h: seq<Scan>)
    requires TofTiming(s) && From(h, now) && HeldAt(h, false) && h != []
    ensures var s', x := TofRun(TofRestore(s, now), h), h[|h| - 1];
      && !s'.prevInput
      && (if s.et > 0
          then (s'.output <==> !UpSince(h, s.et, now))
               && s'.start == (if s'.output then Some(now - s.et) else None)
               && (s'.output ==> s'.et == s.et + x.now - now)
          else s'.output && s'.start == None && s'.et == 0)
  {
    if |h| > 1 {
      TofGoesOn(s, now, h[..|h| - 1]);
    } else {
      assert TofRun(TofRestore(s, now), h[..0]) == TofRestore(s, now);
    }
    UpSinceOneMore(h, s.et, now);
  }

  /** Restored with its input still off, it is on until the time gone by before and after the
      restart is its preset, unless it was saved with ET at zero: then it stays on. */
  lemma TofEndsOnTimeExactly(s: TofState, now: int)
    requires TofTiming(s)
    ensures (forall h: seq<Scan> | From(h, now) && HeldAt(h, false) && h != [] ::
               TofRun(TofRestore(s, now), h).output <==> !UpSince(h, s.et, now))
      <==> s.et > 0
  {
    forall h: seq<Scan> | From(h, now) && HeldAt(h, false) && h != []
      ensures var q := TofRun(TofRestore(s, now), h).output;
        if s.et > 0 then q <==> !UpSince(h, s.et, now) else q
    {
      TofGoesOn(s, now, h);
    }
    var late := [Scan(false, s.pt, now + s.pt)];
    assert late[0].now - now >= late[0].pt;
    assert From(late, now) && HeldAt(late, false) && UpSince(late, s.et, now);
  }

  /** A TP saved after a scan, in the middle of a pulse. */
  ghost predicate TpTiming(s: TpState) {
    s.pulseActive && s.output && s.et < s.pt
  }

  lemma {:induction false} TpStaysOn(s: TpState, now: int, h: seq<Scan>)
    requires TpTiming(s) && s.et == 0
    ensures var s' := TpRun(TpRestore(s, now), h);
      && s'.pulseActive && s'.output && s'.start == None
      && s'.prevInput == if h == [] then s.prevInput else h[|h| - 1].input
  {
    if h != [] {
      TpStaysOn(s, now, h[..|h| - 1]);
    }
  }

  /** Restored, it ends its pulse when the time gone by before and after the restart is its preset,
      whatever its input does, unless it was saved with ET at zero: then Q stays on for ever,
      whatever its input does. */
  lemma TpEndsOnTimeExactly(s: TpState, now: int)
    requires TpTiming(s)
    ensures (exists h: seq<Scan> :: !TpRun(TpRestore(s, now), h).output) <==> s.et > 0
    ensures s.et > 0 ==>
      forall h: seq<Scan> | From(h, now) && h != [] && !UpSince(h[..|h| - 1], s.et, now) ::
        TpRun(TpRestore(s, now), h).output <==> !UpSince(h, s.et, now)
  {
    if s.et > 0 {
      forall h: seq<Scan> | From(h, now) && h != [] && !UpSince(h[..|h| - 1], s.et, now)
        ensures TpRun(TpRestore(s, now), h).output <==> !UpSince(h, s.et, now)
      {
        var earlier := h[..|h| - 1];
        assert forall i | 0 <= i < |earlier| :: h[i] == earlier[i];
        TpIgnoresInputs(TpRestore(s, now), now - s.et, h);
        UpSinceOneMore(h, s.et, now);
      }
      var late := [Scan(false, s.pt, now + s.pt)];
      TpIgnoresInputs(TpRestore(s, now), now - s.et, late);
      assert !TpRun(TpRestore(s, now), late).output;
    } else {
      forall h: seq<Scan> ensures TpRun(TpRestore(s, now), h).output {
        TpStaysOn(s, now, h);
      }
    }
  }

  /** It does happen: timers with a preset of 100 ms, saved in the scan that started them, restored
      and left alone for five seconds.  TON has not fired, TOF and TP have not ended. */
  lemma RestoredTimersStick()
    ensures var ton := TonRun(TonFresh(100), [Scan(true, 100, 0)]);
      TonTiming(ton) && !TonRun(TonRestore(ton, 0), [Scan(true, 100, 5000)]).output
    ensures var tof := TofRun(TofFresh(100), [Scan(true, 100, 0), Scan(false, 100, 10)]);
      TofTiming(tof) && TofRun(TofRestore(tof, 10), [Scan(false, 100, 5000)]).output
    ensures var tp := TpRun(TpFresh(100), [Scan(true, 100, 0)]);
      TpTiming(tp) && TpRun(TpRestore(tp, 0), [Scan(false, 100, 5000)]).output
  {
    var on, off := [Scan(true, 100, 0)], [Scan(true, 100, 0), Scan(false, 100, 10)];
    assert on[..0] == [] && off[..1] == on;
    assert [Scan(true, 100, 5000)][..0] == [] && [Scan(false, 100, 5000)][..0] == [];
  }

  /** TOF's ET does not stay at the preset: two scans after the delay, one ten milliseconds after
      the other. */
  lemma TofElapsedFalls()
    ensures var h := [Scan(true, 100, 0), Scan(false, 100, 10), Scan(false, 100, 110), Scan(false, 100, 120)];
      TofRun(TofFresh(100), h[..3]).et == 100 && TofRun(TofFresh(100), h).et == 0
  {
    var h := [Scan(true, 100, 0), Scan(false, 100, 10), Scan(false, 100, 110), Scan(false, 100, 120)];
    assert h[..3][..2] == h[..2] && h[..2][..1] == h[..1] && h[..1][..0] == [];
    assert TofRun(TofFresh(100), h[..1]) == TofState(100, 0, true, true, None, true);
    assert TofRun(TofFresh(100), h[..2]) == TofState(100, 0, false, true, Some(10), false);
    assert TofRun(TofFresh(100), h[..3]) == TofState(100, 100, false, false, None, false);
  }

  // ---- What histories leave behind ----

  /** What a wall-clock TON has reached after a history that ends with its input on is what
      `TonTiming` asks; likewise a TOF between the two edges, and a TP in its pulse. */
  lemma TimingIsReached(pt: nat, h: seq<Scan>)
    requires InOrder(h) && h != []
    ensures h[|h| - 1].input ==> TonTiming(TonRun(TonFresh(pt), h))
    ensures var s := TofRun(TofFresh(pt), h); !h[|h| - 1].input && s.output ==> TofTiming(s)
    ensures var s := TpRun(TpFresh(pt), h); s.pulseActive ==> TpTiming(s)
  {
    TonMeasuresOnTime(pt, h);
    TofMeasuresOffTime(pt, h);
    TpMeasuresPulse(pt, h);
    assert Held(h, h[|h| - 1].input) > 0;
  }
}
