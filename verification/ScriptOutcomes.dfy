/** What an action comes to, when a script succeeds, and when its error handlers run
    (`src/scripting/engine.rs`). */
module ScriptOutcomes {
  import opened Wrappers
  import opened ScriptContext
  import opened ScriptEngine
  import opened ScriptBounds
  import CD = ConflictDetector

  // ---- Actions ----

  ghost predicate Met(ctx: Context, c: Condition) {
    exists v :: GetValue(ctx, c.source) == Some(v) && ConditionMet(c.op, v, c.value)
  }

  ghost predicate Due(ctx: Context, a: Action) {
    a.condition.Some? ==> Met(ctx, a.condition.value)
  }

  /** What another script has recorded for the target. */
  ghost predicate TakenByOther(w: World, t: CD.Target) {
    t in w.pending && w.pending[t].scriptId != (if w.current.Some? then w.current.value else "unknown")
  }

  ghost predicate AlreadyWritten(w: World, t: CD.Target, v: CD.WriteValue) {
    TakenByOther(w, t) && w.pending[t].value == v
  }

  ghost predicate Loses(w: World, t: CD.Target, v: CD.WriteValue) {
    TakenByOther(w, t) && w.pending[t].value != v && w.pending[t].priority > w.priority
  }

  /** Whether an action fails, from the action and the world that it finds. */
  ghost predicate Fails(s: Setup, w: World, a: Action, depth: nat) {
    && Due(w.context, a)
    && match a.op
       case Write(t, v) => Loses(w, t, v) || (!AlreadyWritten(w, t, v) && !s.samples(w.tick).ok)
       case SetVariable(_, _, retain) => retain && !s.samples(w.tick).ok
       case Delay(ms) => ms > s.limits.maxDelayMs
       case CallScript(id) => !ExecScript(s, w, id, depth + 1).success
       case Notify => false
       case Malformed => true
  }

  lemma MetIsHolds(ctx: Context, c: Condition)
    ensures Met(ctx, c) <==> Holds(ctx, c)
  {
  }

  lemma FailsExactly(s: Setup, w: World, f: Frame, skipped: Option<string>, a: Action, depth: nat)
    requires depth < s.limits.maxCallDepth
    ensures ExecAction(s, w, f, skipped, a, depth).ok <==> !Fails(s, w, a, depth)
  {
    if a.condition.Some? {
      MetIsHolds(w.context, a.condition.value);
    }
  }

  /** An action whose condition is not met does nothing; of the others only writes, variables and
      calls change anything. */
  lemma IdleActionsChangeNothing(s: Setup, w: World, f: Frame, skipped: Option<string>, a: Action, depth: nat)
    requires depth < s.limits.maxCallDepth
    requires Due(w.context, a) ==> a.op.Delay? || a.op.Notify? || a.op.Malformed?
    ensures ExecAction(s, w, f, skipped, a, depth).w == w
  {
    if a.condition.Some? {
      MetIsHolds(w.context, a.condition.value);
    }
  }

  /** A variable that is set is what the next condition reads; a retained one is stored under the
      name of the script in force. */
  lemma SetIsRead(s: Setup, w: World, f: Frame, skipped: Option<string>, a: Action, depth: nat)
    requires depth < s.limits.maxCallDepth && Due(w.context, a) && a.op.SetVariable?
    ensures var after := ExecAction(s, w, f, skipped, a, depth).w;
      var stored := if a.op.retain then (if w.current.Some? then w.current.value else "global") + ":" + a.op.name
                    else a.op.name;
      && after == w.(context := after.context, tick := after.tick)
      && after.context == w.context.(variables := w.context.variables[stored := a.op.content])
      && after.tick == w.tick + (if a.op.retain then 1 else 0)
      && (!a.op.retain && ':' !in a.op.name ==> GetValue(after.context, "var:" + a.op.name) == Some(a.op.content))
  {
    if a.condition.Some? {
      MetIsHolds(w.context, a.condition.value);
    }
    if !a.op.retain && ':' !in a.op.name {
      VariableIsRead(ExecAction(s, w, f, skipped, a, depth).w.context, a.op.name);
    }
  }

  /** After a write the target is recorded with this value, unless it lost, and then what was
      recorded stays; the hardware is asked only if it is neither lost nor there already. */
  lemma WriteIsRecorded(s: Setup, w: World, f: Frame, skipped: Option<string>, a: Action, depth: nat)
    requires depth < s.limits.maxCallDepth && Due(w.context, a) && a.op.Write?
    ensures var after, t, v := ExecAction(s, w, f, skipped, a, depth).w, a.op.target, a.op.value;
      && t in after.pending
      && (if Loses(w, t, v) then after.pending == w.pending else after.pending[t].value == v)
      && (forall other | other != t :: CD.Lookup(after.pending, other) == CD.Lookup(w.pending, other))
      && after.tick == (if Loses(w, t, v) || AlreadyWritten(w, t, v) then w.tick else w.tick + 1)
      && after.context == w.context
  {
    if a.condition.Some? {
      MetIsHolds(w.context, a.condition.value);
    }
  }

  // ---- Frames ----

  /** The next action is reached in time and within the limit, and does not fail. */
  ghost predicate Passes(s: Setup, f: Frame, a: Action, p: Progress, depth: nat) {
    && !Late(s, f, p.w.tick)
    && (Late(s, f, p.w.tick + 1) || p.used < s.limits.maxActionsPerRun)
    && !Fails(s, p.w.(tick := p.w.tick + 2), a, depth)
  }

  ghost predicate AllPass(s: Setup, f: Frame, actions: seq<Action>, p: Progress, depth: nat)
    requires depth < s.limits.maxCallDepth
  {
    actions == [] || (
      && Passes(s, f, actions[0], p, depth)
      && AllPass(s, f, actions[1..], TakeAction(s, f, actions[0], p, depth).0, depth))
  }

  lemma PassesExactly(s: Setup, f: Frame, a: Action, p: Progress, depth: nat)
    requires depth < s.limits.maxCallDepth
    ensures var (q, stop) := TakeAction(s, f, a, p, depth);
      && q.failed == p.failed + (if Passes(s, f, a, p, depth) then 0 else 1)
      && (stop ==> !Passes(s, f, a, p, depth))
      && (stop ==> q == p.(w := p.w.(tick := p.w.tick + (if Late(s, f, p.w.tick) then 1 else 2)),
                           failed := p.failed + 1))
  {
    FailsExactly(s, p.w.(tick := p.w.tick + 2), f, p.skipped, a, depth);
  }

  lemma {:induction false} FailedOnlyGrows(s: Setup, f: Frame, actions: seq<Action>, p: Progress, depth: nat)
    requires depth < s.limits.maxCallDepth
    ensures ExecActions(s, f, actions, p, depth).failed >= p.failed
    decreases |actions|
  {
    if actions != [] {
      var (q, stop) := TakeAction(s, f, actions[0], p, depth);
      PassesExactly(s, f, actions[0], p, depth);
      if !stop {
        FailedOnlyGrows(s, f, actions[1..], q, depth);
      }
    }
  }

  lemma {:induction false} AllPassExactly(s: Setup, f: Frame, actions: seq<Action>, p: Progress, depth: nat)
    requires depth < s.limits.maxCallDepth
    ensures ExecActions(s, f, actions, p, depth).failed == p.failed <==> AllPass(s, f, actions, p, depth)
    decreases |actions|
  {
    if actions != [] {
      var (q, stop) := TakeAction(s, f, actions[0], p, depth);
      PassesExactly(s, f, actions[0], p, depth);
      if !stop {
        AllPassExactly(s, f, actions[1..], q, depth);
        FailedOnlyGrows(s, f, actions[1..], q, depth);
      }
    }
  }

  function FrameOf(s: Setup, w: World, id: string): Frame {
    Frame(id, s.samples(w.tick).now)
  }

  /** As a frame begins, after its own look at the clock. */
  function Begun(w: World): Progress {
    Progress(w.(tick := w.tick + 1), 0, 0, 0, 0, None)
  }

  /** No action of the script fails, runs late or goes over the limit. */
  ghost predicate RunsClean(s: Setup, w: World, id: string, depth: nat)
    requires depth < s.limits.maxCallDepth && id in s.scripts
  {
    AllPass(s, FrameOf(s, w, id), s.scripts[id].actions, Begun(w), depth)
  }

  /** In every world, whatever is called: if a frame runs clean, it ends as if it had no error
      handlers; and whether it succeeds is up to its actions alone. */
  lemma CleanFramesHandleNothing(s: Setup, w: World, id: string, depth: nat)
    requires depth < s.limits.maxCallDepth && id in s.scripts
    ensures var q := ExecFrame(s, w, id, depth);
      && (q.failed == 0 <==> RunsClean(s, w, id, depth))
      && (RunsClean(s, w, id, depth) ==>
            q == ExecActions(s, FrameOf(s, w, id), s.scripts[id].actions, Begun(w), depth))
  {
    AllPassExactly(s, FrameOf(s, w, id), s.scripts[id].actions, Begun(w), depth);
  }

  /** A script succeeds exactly if it is not nested too deep, admitted and found, and either does not
      meet its conditions or runs clean. */
  lemma SucceedsExactly(s: Setup, w: World, id: string, depth: nat)
    ensures ExecScript(s, w, id, depth).success <==>
      && depth < s.limits.maxCallDepth && PassLimiter(s, w, id).1 && id in s.scripts
      && ((exists c | c in s.scripts[id].conditions :: !Met(w.context, c))
          || RunsClean(s, PassLimiter(s, w, id).0.(current := Some(id), priority := s.scripts[id].priority), id, depth))
  {
    var (w1, admitted) := PassLimiter(s, w, id);
    if depth < s.limits.maxCallDepth && admitted && id in s.scripts {
      var w2 := w1.(current := Some(id), priority := s.scripts[id].priority);
      ConditionsExactly(w.context, s.scripts[id].conditions);
      CleanFramesHandleNothing(s, w2, id, depth);
    }
  }

  lemma ConditionsExactly(ctx: Context, conditions: seq<Condition>)
    ensures AllHold(ctx, conditions) <==> forall c | c in conditions :: Met(ctx, c)
  {
    forall c | c in conditions ensures Met(ctx, c) <==> Holds(ctx, c) {
      MetIsHolds(ctx, c);
    }
    if AllHold(ctx, conditions) {
      forall c | c in conditions ensures Met(ctx, c) {
        var i :| 0 <= i < |conditions| && conditions[i] == c;
      }
    }
  }

  // ---- How much runs ----

  lemma {:induction false} ActionsWhileStanding(s: Setup, f: Frame, actions: seq<Action>, p: Progress, depth: nat)
    requires depth < s.limits.maxCallDepth && Standing(s) && f.start == s.samples(0).now
    requires p.used <= s.limits.maxActionsPerRun
    ensures var q, n := ExecActions(s, f, actions, p, depth), Min(|actions|, s.limits.maxActionsPerRun - p.used);
      q.used == p.used + n && q.direct == p.direct + n
    decreases |actions|
  {
    if actions != [] {
      assert !Late(s, f, p.w.tick) && !Late(s, f, p.w.tick + 1);
      var (q, stop) := TakeAction(s, f, actions[0], p, depth);
      if !stop {
        ActionsWhileStanding(s, f, actions[1..], q, depth);
      }
    }
  }

  lemma {:induction false} HandlersWhileStanding(s: Setup, f: Frame, actions: seq<Action>, p: Progress, depth: nat)
    requires depth < s.limits.maxCallDepth && Standing(s) && f.start == s.samples(0).now
    requires p.used <= s.limits.maxActionsPerRun
    ensures ExecOnError(s, f, actions, p, depth).direct
            == p.direct + Min(|actions|, s.limits.maxActionsPerRun - p.used)
    decreases |actions|
  {
    if actions != [] {
      assert !Late(s, f, p.w.tick);
      var (q, stop) := TakeHandler(s, f, actions[0], p, depth);
      if !stop {
        HandlersWhileStanding(s, f, actions[1..], q, depth);
      }
    }
  }

  /** With time enough a frame runs its actions as far as the limit goes, and after them, exactly if
      it does not run clean, its error handlers as far as the limit goes then. */
  lemma HandlersRunExactly(s: Setup, w: World, id: string, depth: nat)
    requires depth < s.limits.maxCallDepth && id in s.scripts && Standing(s)
    ensures var q, m := ExecFrame(s, w, id, depth), s.limits.maxActionsPerRun;
      var n := Min(|s.scripts[id].actions|, m);
      && q.direct == n + (if RunsClean(s, w, id, depth) then 0 else Min(|s.scripts[id].onError|, m - n))
      && (|s.scripts[id].actions| > m ==> !RunsClean(s, w, id, depth))
  {
    var f, begun := FrameOf(s, w, id), Begun(w);
    assert f.start == s.samples(0).now;
    ActionsWhileStanding(s, f, s.scripts[id].actions, begun, depth);
    var acted := ExecActions(s, f, s.scripts[id].actions, begun, depth);
    HandlersWhileStanding(s, f, s.scripts[id].onError, acted, depth);
    CleanFramesHandleNothing(s, w, id, depth);
    if RunsClean(s, w, id, depth) {
      CleanWhileStanding(s, f, s.scripts[id].actions, begun, depth);
    }
  }

  lemma {:induction false} CleanWhileStanding(s: Setup, f: Frame, actions: seq<Action>, p: Progress, depth: nat)
    requires depth < s.limits.maxCallDepth && Standing(s) && f.start == s.samples(0).now
    requires p.used <= s.limits.maxActionsPerRun && AllPass(s, f, actions, p, depth)
    ensures |actions| <= s.limits.maxActionsPerRun - p.used
    decreases |actions|
  {
    if actions != [] {
      assert !Late(s, f, p.w.tick) && !Late(s, f, p.w.tick + 1);
      CleanWhileStanding(s, f, actions[1..], TakeAction(s, f, actions[0], p, depth).0, depth);
    }
  }

  lemma {:induction false} HandlersOnlyGrow(s: Setup, f: Frame, actions: seq<Action>, p: Progress, depth: nat)
    requires depth < s.limits.maxCallDepth
    ensures ExecOnError(s, f, actions, p, depth).direct >= p.direct
    decreases |actions|
  {
    if actions != [] {
      var (q, stop) := TakeHandler(s, f, actions[0], p, depth);
      if !stop {
        HandlersOnlyGrow(s, f, actions[1..], q, depth);
      }
    }
  }

  /** Under every clock some handler runs exactly if the frame does not run clean, there is one, and
      time and limit are not used up by then. */
  lemma SomeHandlerRunsExactly(s: Setup, w: World, id: string, depth: nat)
    requires depth < s.limits.maxCallDepth && id in s.scripts
    ensures var acted := ExecActions(s, FrameOf(s, w, id), s.scripts[id].actions, Begun(w), depth);
      ExecFrame(s, w, id, depth).direct > acted.direct <==>
        && !RunsClean(s, w, id, depth) && s.scripts[id].onError != []
        && !Late(s, FrameOf(s, w, id), acted.w.tick) && acted.used < s.limits.maxActionsPerRun
  {
    CleanFramesHandleNothing(s, w, id, depth);
    var f, handlers := FrameOf(s, w, id), s.scripts[id].onError;
    var acted := ExecActions(s, f, s.scripts[id].actions, Begun(w), depth);
    if acted.failed > 0 && handlers != [] {
      var (q, stop) := TakeHandler(s, f, handlers[0], acted, depth);
      if !stop {
        HandlersOnlyGrow(s, f, handlers[1..], q, depth);
      }
    }
  }

  /** A list that runs to its end goes on with what follows; one that does not ends there. */
  lemma {:induction false} ActionsRunInOrder(s: Setup, f: Frame, first: seq<Action>, rest: seq<Action>, p: Progress,
                                             depth: nat)
    requires depth < s.limits.maxCallDepth
    ensures var q := ExecActions(s, f, first, p, depth);
      && q.direct <= p.direct + |first|
      && ExecActions(s, f, first + rest, p, depth)
         == if q.direct == p.direct + |first| then ExecActions(s, f, rest, q, depth) else q
    decreases |first|
  {
    if first == [] {
      assert first + rest == rest;
    } else {
      var all := first + rest;
      assert all[0] == first[0] && all[1..] == first[1..] + rest;
      var (q, stop) := TakeAction(s, f, first[0], p, depth);
      if !stop {
        ActionsRunInOrder(s, f, first[1..], rest, q, depth);
      }
    }
  }

  lemma {:induction false} HandlersRunInOrder(s: Setup, f: Frame, first: seq<Action>, rest: seq<Action>, p: Progress,
                                              depth: nat)
    requires depth < s.limits.maxCallDepth
    ensures var q := ExecOnError(s, f, first, p, depth);
      && q.direct <= p.direct + |first|
      && ExecOnError(s, f, first + rest, p, depth)
         == if q.direct == p.direct + |first| then ExecOnError(s, f, rest, q, depth) else q
    decreases |first|
  {
    if first == [] {
      assert first + rest == rest;
    } else {
      var all := first + rest;
      assert all[0] == first[0] && all[1..] == first[1..] + rest;
      var (q, stop) := TakeHandler(s, f, first[0], p, depth);
      if !stop {
        HandlersRunInOrder(s, f, first[1..], rest, q, depth);
      }
    }
  }

  /** What is run besides the action itself is what the script it calls runs; it comes out as that
      script does, and a script that was skipped is counted and remembered. */
  lemma RunsWhatItCalls(s: Setup, w: World, f: Frame, skipped: Option<string>, a: Action, depth: nat)
    requires depth < s.limits.maxCallDepth
    ensures ExecAction(s, w, f, skipped, a, depth).ran
            == 1 + if Due(w.context, a) && a.op.CallScript? then ExecScript(s, w, a.op.script, depth + 1).ran else 0
    ensures Due(w.context, a) && a.op.CallScript? ==>
      var r, o := ExecAction(s, w, f, skipped, a, depth), ExecScript(s, w, a.op.script, depth + 1);
      && r.ok == o.success && r.skipped == (if o.skipped then Some(a.op.script) else None)
      && r.w == o.w.(skips := o.w.skips + if o.skipped then 1 else 0)
  {
    if a.condition.Some? {
      MetIsHolds(w.context, a.condition.value);
    }
  }
}
