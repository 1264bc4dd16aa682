/** How much a script can do before it ends.  That it ends at all, on any call graph, is the
    termination of `ExecScript`. */
module ScriptBounds {
  import opened Wrappers
  import opened ScriptContext
  import opened ScriptEngine

  /** The clock never goes back. */
  ghost predicate Monotonic(s: Setup) {
    forall i, j | 0 <= i <= j :: s.samples(i).now <= s.samples(j).now
  }

  ghost function Power(b: nat, e: nat): nat {
    if e == 0 then 1 else b * Power(b, e - 1)
  }

  /** `b + b^2 + … + b^n`. */
  ghost function SumOfPowers(b: nat, n: nat): nat {
    if n == 0 then 0 else SumOfPowers(b, n - 1) + Power(b, n)
  }

  /** What a script can run when `levels` nested calls are still allowed. */
  ghost function Budget(s: Setup, levels: nat): nat {
    SumOfPowers(s.limits.maxActionsPerRun + 1, levels)
  }

  lemma {:induction false} SumOfPowersShift(b: nat, n: nat)
    requires n > 0
    ensures SumOfPowers(b, n) == b * (1 + SumOfPowers(b, n - 1))
  {
    if n == 1 {
      assert Power(b, 1) == b * Power(b, 0);
      assert SumOfPowers(b, 0) == 0;
    } else {
      SumOfPowersShift(b, n - 1);
      ScaleSum(b, 1 + SumOfPowers(b, n - 2), Power(b, n - 1));
    }
  }

  /** A frame has run at most one action that its limit did not count, and then its time is
      over; and each action has run at most what a call at the next level can. */
  ghost predicate WithinLimits(s: Setup, f: Frame, p: Progress, each: nat) {
    && p.used <= s.limits.maxActionsPerRun
    && p.used <= p.direct <= p.used + 1
    && (p.direct > p.used ==> Late(s, f, p.w.tick))
    && p.ran <= p.direct * each
  }

  lemma AdvanceWithinLimits(s: Setup, f: Frame, p: Progress, r: Step, counted: bool, each: nat)
    requires WithinLimits(s, f, p, each) && p.direct == p.used
    requires counted ==> p.used < s.limits.maxActionsPerRun
    requires !counted ==> Late(s, f, r.w.tick)
    requires r.ran <= each
    ensures WithinLimits(s, f, Advance(p, r, counted), each)
  {
    assert (p.direct + 1) * each == p.direct * each + each;
  }

  lemma {:induction false} ActionIsBounded(s: Setup, w: World, f: Frame, skipped: Option<string>, a: Action, depth: nat)
    requires Monotonic(s) && depth < s.limits.maxCallDepth
    ensures var r := ExecAction(s, w, f, skipped, a, depth);
            r.w.tick >= w.tick && r.ran <= 1 + Budget(s, s.limits.maxCallDepth - depth - 1)
    decreases s.limits.maxCallDepth - depth, 0, 0
  {
    if a.op.CallScript? && !(a.condition.Some? && !Holds(w.context, a.condition.value)) {
      ScriptIsBounded(s, w, a.op.script, depth + 1);
    }
  }

  lemma {:induction false} ActionsAreBounded(s: Setup, f: Frame, actions: seq<Action>, p: Progress, depth: nat)
    requires Monotonic(s) && depth < s.limits.maxCallDepth
    requires WithinLimits(s, f, p, 1 + Budget(s, s.limits.maxCallDepth - depth - 1))
    ensures var q := ExecActions(s, f, actions, p, depth);
            q.w.tick >= p.w.tick
            && WithinLimits(s, f, q, 1 + Budget(s, s.limits.maxCallDepth - depth - 1))
    decreases s.limits.maxCallDepth - depth, 2, |actions|
  {
    if actions != [] && !Late(s, f, p.w.tick) {
      var late := Late(s, f, p.w.tick + 1);
      var w := p.w.(tick := p.w.tick + 2);
      if late || p.used < s.limits.maxActionsPerRun {
        ActionIsBounded(s, w, f, p.skipped, actions[0], depth);
        var r := ExecAction(s, w, f, p.skipped, actions[0], depth);
        AdvanceWithinLimits(s, f, p, r, !late, 1 + Budget(s, s.limits.maxCallDepth - depth - 1));
        ActionsAreBounded(s, f, actions[1..], Advance(p, r, !late), depth);
      }
    }
  }

  lemma {:induction false} OnErrorIsBounded(s: Setup, f: Frame, actions: seq<Action>, p: Progress, depth: nat)
    requires Monotonic(s) && depth < s.limits.maxCallDepth
    requires WithinLimits(s, f, p, 1 + Budget(s, s.limits.maxCallDepth - depth - 1))
    ensures var q := ExecOnError(s, f, actions, p, depth);
            q.w.tick >= p.w.tick
            && WithinLimits(s, f, q, 1 + Budget(s, s.limits.maxCallDepth - depth - 1))
    decreases s.limits.maxCallDepth - depth, 2, |actions|
  {
    if actions != [] && !Late(s, f, p.w.tick) && p.used < s.limits.maxActionsPerRun {
      var w := p.w.(tick := p.w.tick + 1);
      ActionIsBounded(s, w, f, p.skipped, actions[0], depth);
      var r := ExecAction(s, w, f, p.skipped, actions[0], depth);
      AdvanceWithinLimits(s, f, p, r, true, 1 + Budget(s, s.limits.maxCallDepth - depth - 1));
      OnErrorIsBounded(s, f, actions[1..], Advance(p, r, true), depth);
    }
  }

  /** One frame, error handlers included, runs at most one action more than its limit. */
  lemma {:induction false} FrameIsBounded(s: Setup, w: World, id: string, depth: nat)
    requires Monotonic(s) && depth < s.limits.maxCallDepth && id in s.scripts
    ensures var q := ExecFrame(s, w, id, depth);
      && q.w.tick >= w.tick
      && q.direct <= s.limits.maxActionsPerRun + 1
      && q.ran <= q.direct * (1 + Budget(s, s.limits.maxCallDepth - depth - 1))
    decreases s.limits.maxCallDepth - depth, 3, 0
  {
    var f := Frame(id, s.samples(w.tick).now);
    var begun := Progress(w.(tick := w.tick + 1), 0, 0, 0, 0, None);
    ActionsAreBounded(s, f, s.scripts[id].actions, begun, depth);
    var acted := ExecActions(s, f, s.scripts[id].actions, begun, depth);
    if acted.failed > 0 {
      OnErrorIsBounded(s, f, s.scripts[id].onError, acted, depth);
    }
  }

  /** So many actions, of which each runs what the levels below admit, are within what this level
      admits. */
  lemma FrameFits(m: nat, levels: nat, direct: nat, ran: nat)
    requires levels > 0 && direct <= m && ran <= direct * (1 + SumOfPowers(m, levels - 1))
    ensures ran <= SumOfPowers(m, levels)
  {
    ScaleMonotone(1 + SumOfPowers(m, levels - 1), direct, m);
    SumOfPowersShift(m, levels);
  }

  /** On any call graph a script at `depth` runs, with all it calls, at most
      `m + m^2 + … + m^k` actions, where `m` is the action limit plus one and `k` the number
      of levels left. */
  lemma {:induction false} ScriptIsBounded(s: Setup, w: World, id: string, depth: nat)
    requires Monotonic(s)
    ensures var o := ExecScript(s, w, id, depth);
            o.w.tick >= w.tick && o.ran <= Budget(s, Max(s.limits.maxCallDepth - depth, 0))
    decreases Max(s.limits.maxCallDepth - depth, 0), 4, 0
  {
    var (w1, admitted) := PassLimiter(s, w, id);
    if depth < s.limits.maxCallDepth && admitted && id in s.scripts {
      var w2 := w1.(current := Some(id), priority := s.scripts[id].priority);
      if AllHold(w2.context, s.scripts[id].conditions) {
        FrameIsBounded(s, w2, id, depth);
        var done := ExecFrame(s, w2, id, depth);
        FrameFits(s.limits.maxActionsPerRun + 1, s.limits.maxCallDepth - depth, done.direct, done.ran);
      }
    }
  }

  /** The extra action happens: with a limit of one action, time that runs out between the two
      looks at the clock lets a second one through. */
  lemma UncountedActionRuns()
    ensures exists s: Setup, w: World ::
              Monotonic(s) && s.limits.maxActionsPerRun == 1 && ExecScript(s, w, "a", 0).ran == 2
  {
    var note := Action(Notify, None);
    var s := Setup(map["a" := Script(0, [], [note, note], [])], Limits(10, 1, 1, 0, 1),
                   (i: nat) => Sample(if i <= 4 then 0 else 11, true));
    var w := World(None, 0, map[], map[], NOTHING, 0, [], 0);
    var w2 := w.(windows := map["a" := RL.Window(1, 0)], tick := 1, current := Some("a"));
    var f := Frame("a", 0);
    var begun := Progress(w2.(tick := 2), 0, 0, 0, 0, None);
    var counted := Progress(w2.(tick := 4), 0, 1, 1, 1, None);
    var extra := Progress(w2.(tick := 6), 0, 1, 2, 2, None);
    assert TakeAction(s, f, note, begun, 0) == (counted, false);
    assert TakeAction(s, f, note, counted, 0) == (extra, false);
    assert [note][1..] == [] && [note, note][1..] == [note];
    assert ExecActions(s, f, [note], counted, 0) == extra;
    assert ExecActions(s, f, [note, note], begun, 0) == extra;
    assert ExecFrame(s, w2, "a", 0) == extra;
    assert ExecScript(s, w, "a", 0).ran == 2;
  }
}
