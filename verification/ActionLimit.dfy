/** When a frame keeps to its action limit (`src/scripting/limits.rs`, `src/scripting/engine.rs`):
    the clock can run out between the two looks at it, and the action taken then is not counted. */
module ActionLimit {
  import opened Wrappers
  import opened ScriptEngine
  import opened ScriptBounds

  // ---- Short lists ----

  lemma {:induction false} RunsAtMostTheList(s: Setup, f: Frame, actions: seq<Action>, p: Progress, depth: nat)
    requires depth < s.limits.maxCallDepth
    ensures var q := ExecActions(s, f, actions, p, depth); p.direct <= q.direct <= p.direct + |actions|
    decreases |actions|
  {
    if actions != [] {
      var (q, stop) := TakeAction(s, f, actions[0], p, depth);
      if !stop {
        RunsAtMostTheList(s, f, actions[1..], q, depth);
      }
    }
  }

  /** Error handlers only run within the limits. */
  lemma {:induction false} HandlersAreCounted(s: Setup, f: Frame, actions: seq<Action>, p: Progress, depth: nat)
    requires depth < s.limits.maxCallDepth && p.used <= s.limits.maxActionsPerRun
    requires p.direct == p.used || (p.direct > p.used && Late(s, f, p.w.tick))
    ensures var q := ExecOnError(s, f, actions, p, depth);
      && p.direct <= q.direct
      && (if p.direct == p.used then q.direct <= s.limits.maxActionsPerRun else q.direct == p.direct)
    decreases |actions|
  {
    if actions != [] {
      var (q, stop) := TakeHandler(s, f, actions[0], p, depth);
      if !stop {
        HandlersAreCounted(s, f, actions[1..], q, depth);
      }
    }
  }

  lemma ShortListKeepsLimit(s: Setup, w: World, id: string, depth: nat)
    requires Monotonic(s) && depth < s.limits.maxCallDepth && id in s.scripts
    requires |s.scripts[id].actions| <= s.limits.maxActionsPerRun
    ensures ExecFrame(s, w, id, depth).direct <= s.limits.maxActionsPerRun
  {
    var f := Frame(id, s.samples(w.tick).now);
    var begun := Progress(w.(tick := w.tick + 1), 0, 0, 0, 0, None);
    var acted := ExecActions(s, f, s.scripts[id].actions, begun, depth);
    RunsAtMostTheList(s, f, s.scripts[id].actions, begun, depth);
    ActionsAreBounded(s, f, s.scripts[id].actions, begun, depth);
    if acted.failed > 0 {
      HandlersAreCounted(s, f, s.scripts[id].onError, acted, depth);
    }
  }

  // ---- A run depends on the samples it has taken ----

  /** The two setups differ in samples from tick `t` on at most. */
  ghost predicate AgreeBelow(s: Setup, s': Setup, t: nat) {
    s' == s.(samples := s'.samples) && forall i: nat | i < t :: s'.samples(i) == s.samples(i)
  }

  lemma {:induction false} ActionIsLocal(s: Setup, s': Setup, t: nat, w: World, f: Frame, skipped: Option<string>,
                                         a: Action, depth: nat)
    requires AgreeBelow(s, s', t) && Monotonic(s) && depth < s.limits.maxCallDepth
    requires ExecAction(s, w, f, skipped, a, depth).w.tick <= t
    ensures ExecAction(s', w, f, skipped, a, depth) == ExecAction(s, w, f, skipped, a, depth)
    decreases s.limits.maxCallDepth - depth, 0, 0
  {
    if !(a.condition.Some? && !Holds(w.context, a.condition.value)) && a.op.CallScript? {
      ScriptIsLocal(s, s', t, w, a.op.script, depth + 1);
    }
  }

  lemma {:induction false} ActionsAreLocal(s: Setup, s': Setup, t: nat, f: Frame, actions: seq<Action>, p: Progress,
                                           depth: nat)
    requires AgreeBelow(s, s', t) && Monotonic(s) && depth < s.limits.maxCallDepth
    requires ExecActions(s, f, actions, p, depth).w.tick <= t
    ensures ExecActions(s', f, actions, p, depth) == ExecActions(s, f, actions, p, depth)
    decreases s.limits.maxCallDepth - depth, 2, |actions|
  {
    if actions != [] {
      var (q, stop) := TakeAction(s, f, actions[0], p, depth);
      if !stop {
        TicksGoUp(s, f, actions[1..], q, depth);
      }
      TakeActionIsLocal(s, s', t, f, actions[0], p, depth);
      if !stop {
        ActionsAreLocal(s, s', t, f, actions[1..], q, depth);
      }
    }
  }

  lemma {:induction false} TakeActionIsLocal(s: Setup, s': Setup, t: nat, f: Frame, a: Action, p: Progress, depth: nat)
    requires AgreeBelow(s, s', t) && Monotonic(s) && depth < s.limits.maxCallDepth
    requires TakeAction(s, f, a, p, depth).0.w.tick <= t
    ensures TakeAction(s', f, a, p, depth) == TakeAction(s, f, a, p, depth)
    decreases s.limits.maxCallDepth - depth, 1, 0
  {
    if !Late(s, f, p.w.tick) {
      var late := Late(s, f, p.w.tick + 1);
      var w := p.w.(tick := p.w.tick + 2);
      if late || p.used < s.limits.maxActionsPerRun {
        ActionIsBounded(s, w, f, p.skipped, a, depth);
        ActionIsLocal(s, s', t, w, f, p.skipped, a, depth);
      }
    }
  }

  lemma {:induction false} HandlersAreLocal(s: Setup, s': Setup, t: nat, f: Frame, actions: seq<Action>, p: Progress,
                                            depth: nat)
    requires AgreeBelow(s, s', t) && Monotonic(s) && depth < s.limits.maxCallDepth
    requires ExecOnError(s, f, actions, p, depth).w.tick <= t
    ensures ExecOnError(s', f, actions, p, depth) == ExecOnError(s, f, actions, p, depth)
    decreases s.limits.maxCallDepth - depth, 2, |actions|
  {
    if actions != [] {
      var (q, stop) := TakeHandler(s, f, actions[0], p, depth);
      if !stop {
        HandlerTicksGoUp(s, f, actions[1..], q, depth);
      }
      TakeHandlerIsLocal(s, s', t, f, actions[0], p, depth);
      if !stop {
        HandlersAreLocal(s, s', t, f, actions[1..], q, depth);
      }
    }
  }

  lemma {:induction false} TakeHandlerIsLocal(s: Setup, s': Setup, t: nat, f: Frame, a: Action, p: Progress, depth: nat)
    requires AgreeBelow(s, s', t) && Monotonic(s) && depth < s.limits.maxCallDepth
    requires TakeHandler(s, f, a, p, depth).0.w.tick <= t
    ensures TakeHandler(s', f, a, p, depth) == TakeHandler(s, f, a, p, depth)
    decreases s.limits.maxCallDepth - depth, 1, 0
  {
    if !Late(s, f, p.w.tick) && p.used < s.limits.maxActionsPerRun {
      var w := p.w.(tick := p.w.tick + 1);
      ActionIsBounded(s, w, f, p.skipped, a, depth);
      ActionIsLocal(s, s', t, w, f, p.skipped, a, depth);
    }
  }

  lemma {:induction false} ScriptIsLocal(s: Setup, s': Setup, t: nat, w: World, id: string, depth: nat)
    requires AgreeBelow(s, s', t) && Monotonic(s) && ExecScript(s, w, id, depth).w.tick <= t
    ensures ExecScript(s', w, id, depth) == ExecScript(s, w, id, depth)
    decreases Max(s.limits.maxCallDepth - depth, 0), 4, 0
  {
    if depth < s.limits.maxCallDepth {
      var (w1, admitted) := PassLimiter(s, w, id);
      if admitted && id in s.scripts {
        var w2 := w1.(current := Some(id), priority := s.scripts[id].priority);
        if AllHold(w2.context, s.scripts[id].conditions) {
          FrameIsBounded(s, w2, id, depth);
          FrameIsLocal(s, s', t, w2, id, depth);
        }
      }
    }
  }

  lemma {:induction false} FrameIsLocal(s: Setup, s': Setup, t: nat, w: World, id: string, depth: nat)
    requires AgreeBelow(s, s', t) && Monotonic(s) && depth < s.limits.maxCallDepth && id in s.scripts
    requires ExecFrame(s, w, id, depth).w.tick <= t
    ensures ExecFrame(s', w, id, depth) == ExecFrame(s, w, id, depth)
    decreases s.limits.maxCallDepth - depth, 3, 0
  {
    var f := Frame(id, s.samples(w.tick).now);
    var begun := Progress(w.(tick := w.tick + 1), 0, 0, 0, 0, None);
    var acted := ExecActions(s, f, s.scripts[id].actions, begun, depth);
    TicksGoUp(s, f, s.scripts[id].actions, begun, depth);
    if acted.failed > 0 {
      HandlerTicksGoUp(s, f, s.scripts[id].onError, acted, depth);
      HandlersAreLocal(s, s', t, f, s.scripts[id].onError, acted, depth);
    }
    ActionsAreLocal(s, s', t, f, s.scripts[id].actions, begun, depth);
  }

  lemma {:induction false} TicksGoUp(s: Setup, f: Frame, actions: seq<Action>, p: Progress, depth: nat)
    requires Monotonic(s) && depth < s.limits.maxCallDepth
    ensures ExecActions(s, f, actions, p, depth).w.tick >= p.w.tick
    decreases |actions|
  {
    if actions != [] {
      var (q, stop) := TakeAction(s, f, actions[0], p, depth);
      ActionIsBounded(s, p.w.(tick := p.w.tick + 2), f, p.skipped, actions[0], depth);
      if !stop {
        TicksGoUp(s, f, actions[1..], q, depth);
      }
    }
  }

  lemma {:induction false} HandlerTicksGoUp(s: Setup, f: Frame, actions: seq<Action>, p: Progress, depth: nat)
    requires Monotonic(s) && depth < s.limits.maxCallDepth
    ensures ExecOnError(s, f, actions, p, depth).w.tick >= p.w.tick
    decreases |actions|
  {
    if actions != [] {
      var (q, stop) := TakeHandler(s, f, actions[0], p, depth);
      ActionIsBounded(s, p.w.(tick := p.w.tick + 1), f, p.skipped, actions[0], depth);
      if !stop {
        HandlerTicksGoUp(s, f, actions[1..], q, depth);
      }
    }
  }

  // ---- Long lists ----

  /** A clock that stands at zero until it is looked at for the `t`-th time, and reads `late` from
      then on. */
  function Jump(t: nat, late: int): nat -> Sample {
    (i: nat) => Sample(if i < t then 0 else late, true)
  }

  /** `s` under that clock. */
  function Jumping(s: Setup, t: nat): Setup {
    s.(samples := Jump(t, s.limits.maxExecutionMs + 1))
  }

  /** While the clock stands, `k` actions within the limit are all counted; and what jumps only
      later does the same up to there. */
  lemma {:induction false} CountsWhileStanding(s: Setup, s0: Setup, t: nat, f: Frame, actions: seq<Action>,
                                               p: Progress, k: nat, depth: nat)
    requires s0 == s.(samples := (i: nat) => Sample(0, true)) && f.start == 0
    requires depth < s.limits.maxCallDepth && k <= |actions| && p.used + k <= s.limits.maxActionsPerRun
    requires ExecActions(s0, f, actions[..k], p, depth).w.tick < t
    ensures var q := ExecActions(s0, f, actions[..k], p, depth);
      && q.used == p.used + k && q.direct == p.direct + k
      && ExecActions(Jumping(s, t), f, actions, p, depth) == ExecActions(Jumping(s, t), f, actions[k..], q, depth)
    decreases k
  {
    var front := actions[..k];
    if k == 0 {
      assert front == [] && actions[0..] == actions;
    } else {
      assert front[0] == actions[0] && front[1..] == actions[1..][..k - 1] && actions[1..][k - 1..] == actions[k..];
      var (q, stop) := TakeAction(s0, f, actions[0], p, depth);
      assert !stop && q.used == p.used + 1 && q.direct == p.direct + 1;
      TicksGoUp(s0, f, front[1..], q, depth);
      TakeActionIsLocal(s0, Jumping(s, t), t, f, actions[0], p, depth);
      CountsWhileStanding(s, s0, t, f, actions[1..], q, k - 1, depth);
    }
  }

  /** On a list longer than the limit a clock that jumps between the two looks at the action after
      the last counted one lets that action run. */
  lemma LongListExceedsLimit(s: Setup, w: World, id: string, depth: nat) returns (t: nat)
    requires depth < s.limits.maxCallDepth && id in s.scripts
    requires |s.scripts[id].actions| > s.limits.maxActionsPerRun
    ensures Monotonic(Jumping(s, t)) && ExecFrame(Jumping(s, t), w, id, depth).direct == s.limits.maxActionsPerRun + 1
  {
    var actions, k := s.scripts[id].actions, s.limits.maxActionsPerRun;
    var s0 := s.(samples := (i: nat) => Sample(0, true));
    var f := Frame(id, 0);
    var begun := Progress(w.(tick := w.tick + 1), 0, 0, 0, 0, None);
    var counted := ExecActions(s0, f, actions[..k], begun, depth);
    TicksGoUp(s0, f, actions[..k], begun, depth);
    t := counted.w.tick + 1;
    var s1 := Jumping(s, t);
    CountsWhileStanding(s, s0, t, f, actions, begun, k, depth);
    var rest := actions[k..];
    var (q, stop) := TakeAction(s1, f, rest[0], counted, depth);
    assert !stop && q.direct == k + 1;
    RunsAtMostTheList(s1, f, rest[1..], q, depth);
    var acted := ExecActions(s1, f, actions, begun, depth);
    assert acted.direct >= k + 1;
    FrameIsBounded(s1, w, id, depth);
    ActionsAreBounded(s1, f, actions, begun, depth);
    if acted.failed > 0 {
      HandlersAreCounted(s1, f, s.scripts[id].onError, acted, depth);
    }
  }

  /** Under every clock that does not go back a frame runs at most as many actions as its limit
      says, exactly when its list is no longer than that. */
  lemma ActionLimitHoldsExactly(s: Setup, w: World, id: string, depth: nat)
    requires depth < s.limits.maxCallDepth && id in s.scripts
    ensures (forall samples: nat -> Sample | Monotonic(s.(samples := samples)) ::
               ExecFrame(s.(samples := samples), w, id, depth).direct <= s.limits.maxActionsPerRun)
            <==> |s.scripts[id].actions| <= s.limits.maxActionsPerRun
  {
    if |s.scripts[id].actions| <= s.limits.maxActionsPerRun {
      forall samples: nat -> Sample | Monotonic(s.(samples := samples))
        ensures ExecFrame(s.(samples := samples), w, id, depth).direct <= s.limits.maxActionsPerRun
      {
        ShortListKeepsLimit(s.(samples := samples), w, id, depth);
      }
    } else {
      var t := LongListExceedsLimit(s, w, id, depth);
      var samples := Jump(t, s.limits.maxExecutionMs + 1);
      assert s.(samples := samples) == Jumping(s, t);
    }
  }
}
