/** Counter blocks (`src/scripting/function_blocks/counters.rs`).  Counts are 32-bit and stop
    at their limits. */
module Counters {
  import opened Wrappers

  const I32_MAX: int := 0x7fff_ffff
  const I32_MIN: int := -0x8000_0000

  type i32 = v: int | -0x8000_0000 <= v <= 0x7fff_ffff

  /** `v as i32` for a 64-bit integer: the low 32 bits, read as signed. */
  function ToI32(v: int): i32 {
    var low := v % 0x1_0000_0000;
    if low <= I32_MAX then low else low - 0x1_0000_0000
  }

  /** It keeps the low bits, and every integer that has 32 of them. */
  lemma ToI32KeepsLowBits(v: int)
    ensures (ToI32(v) - v) % 0x1_0000_0000 == 0
    ensures I32_MIN <= v <= I32_MAX ==> ToI32(v) == v
  {
  }

  datatype CtuState = CtuState(pv: i32, cv: i32, cu: bool, reset: bool, q: bool, prevCu: bool)

  datatype CtdState = CtdState(pv: i32, cv: i32, cd: bool, load: bool, q: bool, prevCd: bool)

  datatype CtudState = CtudState(
    pv: i32, cv: i32, cu: bool, cd: bool, reset: bool, load: bool,
    qu: bool, qd: bool, prevCu: bool, prevCd: bool)

  function CtuFresh(pv: i32): CtuState {
    CtuState(pv, 0, false, false, false, false)
  }

  function CtdFresh(pv: i32): CtdState {
    CtdState(pv, pv, false, false, false, false)
  }

  function CtudFresh(pv: i32): CtudState {
    CtudState(pv, 0, false, false, false, false, false, true, false, false)
  }

  function Up(cv: i32, edge: bool): i32 {
    if edge && cv < I32_MAX then cv + 1 else cv
  }

  function Down(cv: i32, edge: bool): i32 {
    if edge && cv > I32_MIN then cv - 1 else cv
  }

  function CtuStep(s: CtuState): CtuState {
    var cv: i32 := if s.reset then 0 else Up(s.cv, s.cu && !s.prevCu);
    s.(cv := cv, q := cv >= s.pv, prevCu := s.cu)
  }

  function CtdStep(s: CtdState): CtdState {
    var cv := if s.load then s.pv else Down(s.cv, s.cd && !s.prevCd);
    s.(cv := cv, q := cv <= 0, prevCd := s.cd)
  }

  function CtudStep(s: CtudState): CtudState {
    var cv: i32 :=
      if s.reset then 0
      else if s.load then s.pv
      else Down(Up(s.cv, s.cu && !s.prevCu), s.cd && !s.prevCd);
    s.(cv := cv, qu := cv >= s.pv, qd := cv <= 0, prevCu := s.cu, prevCd := s.cd)
  }

  class CTU {
    var pv: i32
    var cv: i32
    var cu: bool
    var reset: bool
    var q: bool
    var prevCu: bool

    function State(): CtuState
      reads this
    {
      CtuState(pv, cv, cu, reset, q, prevCu)
    }

    constructor (preset: i32)
      ensures State() == CtuFresh(preset)
    {
      pv, cv, cu, reset, q, prevCu := preset, 0, false, false, false, false;
    }

    method Execute()
      modifies this
      ensures State() == CtuStep(old(State()))
    {
      if reset {
        cv := 0;
      } else if cu && !prevCu {
        if cv < I32_MAX {
          cv := cv + 1;
        }
      }
      q := cv >= pv;
      prevCu := cu;
    }
  }

  class CTD {
    var pv: i32
    var cv: i32
    var cd: bool
    var load: bool
    var q: bool
    var prevCd: bool

    function State(): CtdState
      reads this
    {
      CtdState(pv, cv, cd, load, q, prevCd)
    }

    constructor (preset: i32)
      ensures State() == CtdFresh(preset)
    {
      pv, cv, cd, load, q, prevCd := preset, preset, false, false, false, false;
    }

    method Execute()
      modifies this
      ensures State() == CtdStep(old(State()))
    {
      if load {
        cv := pv;
      } else if cd && !prevCd {
        if cv > I32_MIN {
          cv := cv - 1;
        }
      }
      q := cv <= 0;
      prevCd := cd;
    }
  }

  class CTUD {
    var pv: i32
    var cv: i32
    var cu: bool
    var cd: bool
    var reset: bool
    var load: bool
    var qu: bool
    var qd: bool
    var prevCu: bool
    var prevCd: bool

    function State(): CtudState
      reads this
    {
      CtudState(pv, cv, cu, cd, reset, load, qu, qd, prevCu, prevCd)
    }

    constructor (preset: i32)
      ensures State() == CtudFresh(preset)
    {
      pv, cv, cu, cd, reset, load := preset, 0, false, false, false, false;
      qu, qd, prevCu, prevCd := false, true, false, false;
    }

    method Execute()
      modifies this
      ensures State() == CtudStep(old(State()))
    {
      if reset {
        cv := 0;
      } else if load {
        cv := pv;
      } else {
        if cu && !prevCu {
          if cv < I32_MAX {
            cv := cv + 1;
          }
        }
        if cd && !prevCd {
          if cv > I32_MIN {
            cv := cv - 1;
          }
        }
      }
      qu := cv >= pv;
      qd := cv <= 0;
      prevCu := cu;
      prevCd := cd;
    }
  }

  // ---- Histories of the inputs, one sample a scan, the preset among them ----

  datatype Inputs = Inputs(cu: bool, cd: bool, reset: bool, load: bool, pv: i32)

  ghost function CtuRun(pv: i32, h: seq<Inputs>): CtuState {
    if h == [] then CtuFresh(pv)
    else
      var i := h[|h| - 1];
      CtuStep(CtuRun(pv, h[..|h| - 1]).(cu := i.cu, reset := i.reset, pv := i.pv))
  }

  ghost function CtdRun(pv: i32, h: seq<Inputs>): CtdState {
    if h == [] then CtdFresh(pv)
    else
      var i := h[|h| - 1];
      CtdStep(CtdRun(pv, h[..|h| - 1]).(cd := i.cd, load := i.load, pv := i.pv))
  }

  ghost function CtudRun(pv: i32, h: seq<Inputs>): CtudState {
    if h == [] then CtudFresh(pv)
    else
      var i := h[|h| - 1];
      CtudStep(CtudRun(pv, h[..|h| - 1]).(cu := i.cu, cd := i.cd, reset := i.reset, load := i.load, pv := i.pv))
  }

  /** The last scan shows a rising edge; before the first scan all inputs are low. */
  ghost predicate UpEdge(h: seq<Inputs>)
    requires h != []
  {
    h[|h| - 1].cu && (|h| > 1 ==> !h[|h| - 2].cu)
  }

  ghost predicate DownEdge(h: seq<Inputs>)
    requires h != []
  {
    h[|h| - 1].cd && (|h| > 1 ==> !h[|h| - 2].cd)
  }

  /** Up edges since the last scan with reset. */
  ghost function UpsSinceReset(h: seq<Inputs>): nat {
    if h == [] || h[|h| - 1].reset then 0
    else UpsSinceReset(h[..|h| - 1]) + if UpEdge(h) then 1 else 0
  }

  /** Down edges since the last scan with load. */
  ghost function DownsSinceLoad(h: seq<Inputs>): nat {
    if h == [] || h[|h| - 1].load then 0
    else DownsSinceLoad(h[..|h| - 1]) + if DownEdge(h) then 1 else 0
  }

  /** The preset at the last scan with load, or the one the counter was made with. */
  ghost function Loaded(pv: i32, h: seq<Inputs>): i32 {
    if h == [] then pv
    else if h[|h| - 1].load then h[|h| - 1].pv
    else Loaded(pv, h[..|h| - 1])
  }

  /** CTU counts the edges since the last reset, up to the largest 32-bit integer; Q compares with
      the preset of the last scan. */
  lemma {:induction false} CtuCountsEdges(pv: i32, h: seq<Inputs>)
    ensures CtuRun(pv, h).cv == Min(UpsSinceReset(h), I32_MAX)
    ensures CtuRun(pv, h).prevCu == (h != [] && h[|h| - 1].cu)
    ensures h != [] ==> (CtuRun(pv, h).q <==> Min(UpsSinceReset(h), I32_MAX) >= h[|h| - 1].pv)
  {
    if h != [] {
      CtuCountsEdges(pv, h[..|h| - 1]);
    }
  }

  /** CTD counts down from the preset it last loaded, to the smallest 32-bit integer and no
      further. */
  lemma {:induction false} CtdCountsEdges(pv: i32, h: seq<Inputs>)
    ensures CtdRun(pv, h).cv == Max(Loaded(pv, h) - DownsSinceLoad(h), I32_MIN)
    ensures CtdRun(pv, h).prevCd == (h != [] && h[|h| - 1].cd)
    ensures h != [] ==> (CtdRun(pv, h).q <==> Loaded(pv, h) - DownsSinceLoad(h) <= 0)
  {
    if h != [] {
      CtdCountsEdges(pv, h[..|h| - 1]);
    }
  }

  /** The base of the last reset (zero, and it wins) or load (the preset at that scan), plus up
      edges, minus down edges since. */
  ghost function Net(h: seq<Inputs>): int {
    if h == [] || h[|h| - 1].reset then 0
    else if h[|h| - 1].load then h[|h| - 1].pv
    else
      Net(h[..|h| - 1]) + (if UpEdge(h) then 1 else 0) - (if DownEdge(h) then 1 else 0)
  }

  /** The last scan does not run into a limit; with both edges it counts up first. */
  ghost predicate Unclamped(h: seq<Inputs>)
    requires h != []
  {
    var i, before := h[|h| - 1], Net(h[..|h| - 1]);
    i.reset || i.load || (
      && (UpEdge(h) ==> before < I32_MAX)
      && (DownEdge(h) ==> before + (if UpEdge(h) then 1 else 0) > I32_MIN))
  }

  ghost predicate NeverClamped(h: seq<Inputs>) {
    forall k | 0 < k <= |h| :: Unclamped(h[..k])
  }

  lemma {:induction false} CtudRemembers(pv: i32, h: seq<Inputs>)
    ensures var s := CtudRun(pv, h);
      s.prevCu == (h != [] && h[|h| - 1].cu) && s.prevCd == (h != [] && h[|h| - 1].cd)
  {
    if h != [] {
      CtudRemembers(pv, h[..|h| - 1]);
    }
  }

  ghost predicate CountsNet(pv: i32, h: seq<Inputs>) {
    CtudRun(pv, h).cv == Net(h)
  }

  /** CTUD shows the net count all through a history exactly when no scan of it ran into a
      32-bit limit. */
  lemma {:induction false} CtudCountsNetExactly(pv: i32, h: seq<Inputs>)
    ensures (forall k | 0 <= k <= |h| :: CountsNet(pv, h[..k])) <==> NeverClamped(h)
  {
    if h == [] {
      assert h[..0] == [];
    } else {
      var earlier := h[..|h| - 1];
      CtudCountsNetExactly(pv, earlier);
      OneMoreScan(pv, h);
      if CountsNet(pv, earlier) {
        CtudStepCountsNet(pv, h);
      }
    }
  }

  lemma OneMoreScan(pv: i32, h: seq<Inputs>)
    requires h != []
    ensures var earlier := h[..|h| - 1];
      && ((forall k | 0 <= k <= |h| :: CountsNet(pv, h[..k]))
          <==> (forall k | 0 <= k <= |earlier| :: CountsNet(pv, earlier[..k])) && CountsNet(pv, h))
      && (NeverClamped(h) <==> NeverClamped(earlier) && Unclamped(h))
      && ((forall k | 0 <= k <= |earlier| :: CountsNet(pv, earlier[..k])) ==> CountsNet(pv, earlier))
  {
    var earlier := h[..|h| - 1];
    assert forall k | 0 <= k <= |earlier| :: earlier[..k] == h[..k];
    assert h[..|h|] == h && earlier[..|earlier|] == earlier;
  }

  lemma CtudStepCountsNet(pv: i32, h: seq<Inputs>)
    requires h != [] && CountsNet(pv, h[..|h| - 1])
    ensures CountsNet(pv, h) <==> Unclamped(h)
  {
    CtudRemembers(pv, h[..|h| - 1]);
  }

  /** The count with both its limits: up first, then down. */
  ghost function Saturated(h: seq<Inputs>): int {
    if h == [] || h[|h| - 1].reset then 0
    else if h[|h| - 1].load then h[|h| - 1].pv
    else
      var up := Min(Saturated(h[..|h| - 1]) + (if UpEdge(h) then 1 else 0), I32_MAX);
      Max(up - (if DownEdge(h) then 1 else 0), I32_MIN)
  }

  /** Over every history QU says whether the count has reached the preset of the last scan, and QD
      whether it is down to zero; the count is the net count as long as no limit is met. */
  lemma {:induction false} CtudShows(pv: i32, h: seq<Inputs>)
    ensures CtudRun(pv, h).cv == Saturated(h)
    ensures h != [] ==> (CtudRun(pv, h).qu <==> Saturated(h) >= h[|h| - 1].pv)
    ensures h != [] ==> (CtudRun(pv, h).qd <==> Saturated(h) <= 0)
    ensures NeverClamped(h) ==> Saturated(h) == Net(h)
  {
    if h != [] {
      var earlier := h[..|h| - 1];
      CtudShows(pv, earlier);
      CtudRemembers(pv, earlier);
      if NeverClamped(h) {
        assert NeverClamped(earlier) by {
          assert forall k | 0 < k <= |earlier| :: earlier[..k] == h[..k];
        }
        assert h[..|h|] == h;
      }
    }
  }

  /** With a positive preset the two outputs are never on together after a scan. */
  lemma CtudOutputsExclude(pv: i32, h: seq<Inputs>)
    requires h != [] && h[|h| - 1].pv > 0
    ensures !(CtudRun(pv, h).qu && CtudRun(pv, h).qd)
  {
    CtudRemembers(pv, h[..|h| - 1]);
  }
}
