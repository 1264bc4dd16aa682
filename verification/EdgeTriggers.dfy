/** Edge detection blocks (`src/scripting/function_blocks/edge_triggers.rs`). */
module EdgeTriggers {

  datatype TrigState = TrigState(clk: bool, q: bool, prevClk: bool)

  const FRESH: TrigState := TrigState(false, false, false)

  function RisingStep(s: TrigState): TrigState {
    TrigState(s.clk, s.clk && !s.prevClk, s.clk)
  }

  function FallingStep(s: TrigState): TrigState {
    TrigState(s.clk, !s.clk && s.prevClk, s.clk)
  }

  class RTrig {
    var clk: bool
    var q: bool
    var prevClk: bool

    function State(): TrigState
      reads this
    {
      TrigState(clk, q, prevClk)
    }

    constructor ()
      ensures State() == FRESH
    {
      clk, q, prevClk := false, false, false;
    }

    method Execute()
      modifies this
      ensures State() == RisingStep(old(State()))
    {
      q := clk && !prevClk;
      prevClk := clk;
    }
  }

  class FTrig {
    var clk: bool
    var q: bool
    var prevClk: bool

    function State(): TrigState
      reads this
    {
      TrigState(clk, q, prevClk)
    }

    constructor ()
      ensures State() == FRESH
    {
      clk, q, prevClk := false, false, false;
    }

    method Execute()
      modifies this
      ensures State() == FallingStep(old(State()))
    {
      q := !clk && prevClk;
      prevClk := clk;
    }
  }

  // ---- Histories of the clock input, one sample a scan ----

  ghost function RisingRun(history: seq<bool>): TrigState {
    if history == [] then FRESH
    else RisingStep(RisingRun(history[..|history| - 1]).(clk := history[|history| - 1]))
  }

  ghost function FallingRun(history: seq<bool>): TrigState {
    if history == [] then FRESH
    else FallingStep(FallingRun(history[..|history| - 1]).(clk := history[|history| - 1]))
  }

  ghost function RisingFirings(history: seq<bool>): nat {
    if history == [] then 0
    else RisingFirings(history[..|history| - 1]) + if RisingRun(history).q then 1 else 0
  }

  ghost function FallingFirings(history: seq<bool>): nat {
    if history == [] then 0
    else FallingFirings(history[..|history| - 1]) + if FallingRun(history).q then 1 else 0
  }

  /** The input before the last scan; it is low before the first. */
  ghost function Before(history: seq<bool>): bool {
    |history| > 1 && history[|history| - 2]
  }

  /** Each block fires on exactly the scans where its edge shows, for one scan. */
  lemma {:induction false} FiresOnEdges(history: seq<bool>)
    requires history != []
    ensures RisingRun(history).q <==> history[|history| - 1] && !Before(history)
    ensures FallingRun(history).q <==> !history[|history| - 1] && Before(history)
    ensures RisingRun(history).prevClk == FallingRun(history).prevClk == history[|history| - 1]
  {
    if |history| > 1 {
      FiresOnEdges(history[..|history| - 1]);
    }
  }

  /** On one signal rising and falling edges alternate, rising first: the difference of their
      counts is one while the signal is high and zero while it is low. */
  lemma {:induction false} FiringsAlternate(history: seq<bool>)
    ensures RisingFirings(history) - FallingFirings(history)
            == if history != [] && history[|history| - 1] then 1 else 0
  {
    if history != [] {
      FiresOnEdges(history);
      FiringsAlternate(history[..|history| - 1]);
    }
  }
}
