/** The engine as the object it is: fields that the mutually recursive methods update, loops
    over the action lists that stop early.  Each method does what the function of the same
    name in ScriptEngine says. */
module ScriptRunner {
  import opened Wrappers
  import opened ScriptContext
  import opened ScriptEngine
  import CD = ConflictDetector
  import RL = ScriptRateLimiter
  import SC = ScriptCycle

  class Engine {
    const setup: Setup
    var currentScript: Option<string>
    var currentPriority: nat
    var pending: map<CD.Target, CD.PendingWrite>
    var windows: map<string, RL.Window>
    var context: Context
    var tick: nat
    var attempts: seq<Attempt>
    var skips: nat

    function State(): World
      reads this
    {
      World(currentScript, currentPriority, pending, windows, context, tick, attempts, skips)
    }

    constructor (setup: Setup)
      ensures this.setup == setup && State() == World(None, 0, map[], map[], NOTHING, 0, [], 0)
    {
      this.setup := setup;
      currentScript, currentPriority := None, 0;
      pending, windows, context := map[], map[], NOTHING;
      tick, attempts, skips := 0, [], 0;
    }

    method ReadClock() returns (now: int)
      modifies this`tick
      ensures now == setup.samples(old(tick)).now && tick == old(tick) + 1
    {
      now := setup.samples(tick).now;
      tick := tick + 1;
    }

    method ExecuteWrite(f: Frame, skipped: Option<string>, target: CD.Target, value: CD.WriteValue)
        returns (ok: bool)
      modifies this
      ensures var r := ExecWrite(setup, old(State()), f, skipped, target, value);
              State() == r.w && ok == r.ok
    {
      var id := if currentScript.Some? then currentScript.value else "unknown";
      var request := CD.Request(target, CD.PendingWrite(id, currentPriority, value));
      var checked := CD.Check(pending, request);
      pending := checked.0;
      attempts := attempts + [Attempt(f.script, skipped, request)];
      match checked.1
      case ConflictLost => return false;
      case Duplicate => return true;
      case _ =>
        ok := setup.samples(tick).ok;
        tick := tick + 1;
    }

    method ExecuteAction(f: Frame, skipped: Option<string>, a: Action, depth: nat)
        returns (ok: bool, ran: nat, skippedNow: Option<string>)
      requires depth < setup.limits.maxCallDepth
      modifies this
      ensures Step(State(), ok, ran, skippedNow) == ExecAction(setup, old(State()), f, skipped, a, depth)
      decreases setup.limits.maxCallDepth - depth, 0
    {
      if a.condition.Some? && !Holds(context, a.condition.value) {
        return true, 1, None;
      }
      match a.op
      case Write(target, value) =>
        ok := ExecuteWrite(f, skipped, target, value);
        ran, skippedNow := 1, None;
      case SetVariable(name, v, retain) =>
        if retain {
          context := ScriptContext.SetVariable(context, RetainName(currentScript, name), v);
          ok := setup.samples(tick).ok;
          tick := tick + 1;
          return ok, 1, None;
        }
        context := ScriptContext.SetVariable(context, name, v);
        return true, 1, None;
      case Delay(ms) => return ms <= setup.limits.maxDelayMs, 1, None;
      case Notify => return true, 1, None;
      case Malformed => return false, 1, None;
      case CallScript(id) =>
        var success, below, wasSkipped := ExecuteWithDepth(id, depth + 1);
        if wasSkipped {
          skips := skips + 1;
        }
        return success, 1 + below, if wasSkipped then Some(id) else None;
    }

    method ExecuteWithDepth(id: string, depth: nat) returns (success: bool, ran: nat, skipped: bool)
      modifies this
      ensures Outcome(State(), success, ran, skipped) == ExecScript(setup, old(State()), id, depth)
      decreases Max(setup.limits.maxCallDepth - depth, 0), 4
    {
      if depth >= setup.limits.maxCallDepth {
        return false, 0, false;
      }
      var now := ReadClock();
      var admission := RL.Admit(RL.Lookup(windows, id), setup.limits.ratePerMinute, now);
      windows := windows[id := admission.0];
      if !admission.1 || id !in setup.scripts {
        return false, 0, false;
      }
      var script := setup.scripts[id];
      var previousScript, previousPriority := currentScript, currentPriority;
      currentScript, currentPriority := Some(id), script.priority;
      if !AllHold(context, script.conditions) {
        return true, 0, true;
      }
      success, ran := ExecuteFrame(id, depth);
      currentScript, currentPriority := previousScript, previousPriority;
      skipped := false;
    }

    method ExecuteFrame(id: string, depth: nat) returns (success: bool, ran: nat)
      requires depth < setup.limits.maxCallDepth && id in setup.scripts
      modifies this
      ensures var q := ExecFrame(setup, old(State()), id, depth);
              State() == q.w && success == (q.failed == 0) && ran == q.ran
      decreases setup.limits.maxCallDepth - depth, 3
    {
      var start := ReadClock();
      var f := Frame(id, start);
      ghost var begun := Progress(State(), 0, 0, 0, 0, None);
      var failed, used, direct, total, last := RunActions(f, setup.scripts[id].actions, depth);
      success := failed == 0;
      if failed > 0 {
        total := RunOnError(f, setup.scripts[id].onError, failed, used, direct, total, last, depth);
      }
      ran := total;
    }

    method RunActions(f: Frame, actions: seq<Action>, depth: nat)
        returns (failed: nat, used: nat, direct: nat, ran: nat, last: Option<string>)
      requires depth < setup.limits.maxCallDepth
      modifies this
      ensures Progress(State(), failed, used, direct, ran, last)
        == ExecActions(setup, f, actions, Progress(old(State()), 0, 0, 0, 0, None), depth)
      decreases setup.limits.maxCallDepth - depth, 2
    {
      failed, used, direct, ran, last := 0, 0, 0, 0, None;
      ghost var p := Progress(State(), 0, 0, 0, 0, None);
      ghost var whole := ExecActions(setup, f, actions, p, depth);
      assert actions[0..] == actions;
      for i := 0 to |actions|
        invariant p == Progress(State(), failed, used, direct, ran, last)
        invariant whole == ExecActions(setup, f, actions[i..], p, depth)
      {
        ActionsUnfold(setup, f, actions, i, p, depth);
        var stop;
        failed, used, direct, ran, last, stop := RunAction(f, actions[i], failed, used, direct, ran, last, depth);
        p := Progress(State(), failed, used, direct, ran, last);
        if stop {
          return;
        }
      }
    }

    /** One turn of the loop of `RunActions`. */
    method RunAction(f: Frame, a: Action, failed0: nat, used0: nat, direct0: nat, ran0: nat,
                     last0: Option<string>, depth: nat)
        returns (failed: nat, used: nat, direct: nat, ran: nat, last: Option<string>, stop: bool)
      requires depth < setup.limits.maxCallDepth
      modifies this
      ensures (Progress(State(), failed, used, direct, ran, last), stop)
        == TakeAction(setup, f, a, Progress(old(State()), failed0, used0, direct0, ran0, last0), depth)
      decreases setup.limits.maxCallDepth - depth, 1
    {
      failed, used, direct, ran, last, stop := failed0, used0, direct0, ran0, last0, true;
      var first := ReadClock();
      if first - f.start > setup.limits.maxExecutionMs {
        failed := failed + 1;
        return;
      }
      var second := ReadClock();
      var late := second - f.start > setup.limits.maxExecutionMs;
      if !late && used >= setup.limits.maxActionsPerRun {
        failed := failed + 1;
        return;
      }
      if !late {
        used := used + 1;
      }
      var ok, below, skippedNow := ExecuteAction(f, last, a, depth);
      if !ok {
        failed := failed + 1;
      }
      direct, ran := direct + 1, ran + below;
      if skippedNow.Some? {
        last := skippedNow;
      }
      stop := false;
    }

    method RunOnError(f: Frame, actions: seq<Action>, failed0: nat, used0: nat, direct0: nat, ran0: nat,
                      last0: Option<string>, depth: nat) returns (ran: nat)
      requires depth < setup.limits.maxCallDepth
      modifies this
      ensures var q := ExecOnError(setup, f, actions,
                                   Progress(old(State()), failed0, used0, direct0, ran0, last0), depth);
              State() == q.w && ran == q.ran
      decreases setup.limits.maxCallDepth - depth, 2
    {
      var failed: nat, used: nat, direct: nat, last := failed0, used0, direct0, last0;
      ran := ran0;
      ghost var p := Progress(State(), failed, used, direct, ran, last);
      ghost var whole := ExecOnError(setup, f, actions, p, depth);
      assert actions[0..] == actions;
      for i := 0 to |actions|
        invariant p == Progress(State(), failed, used, direct, ran, last)
        invariant whole == ExecOnError(setup, f, actions[i..], p, depth)
      {
        OnErrorUnfold(setup, f, actions, i, p, depth);
        var stop;
        failed, used, direct, ran, last, stop := RunHandler(f, actions[i], failed, used, direct, ran, last, depth);
        p := Progress(State(), failed, used, direct, ran, last);
        if stop {
          return;
        }
      }
    }

    /** One turn of the loop of `RunOnError`. */
    method RunHandler(f: Frame, a: Action, failed0: nat, used0: nat, direct0: nat, ran0: nat,
                      last0: Option<string>, depth: nat)
        returns (failed: nat, used: nat, direct: nat, ran: nat, last: Option<string>, stop: bool)
      requires depth < setup.limits.maxCallDepth
      modifies this
      ensures (Progress(State(), failed, used, direct, ran, last), stop)
        == TakeHandler(setup, f, a, Progress(old(State()), failed0, used0, direct0, ran0, last0), depth)
      decreases setup.limits.maxCallDepth - depth, 1
    {
      failed, used, direct, ran, last, stop := failed0, used0, direct0, ran0, last0, true;
      var now := ReadClock();
      if now - f.start > setup.limits.maxExecutionMs || used >= setup.limits.maxActionsPerRun {
        return;
      }
      used := used + 1;
      var ok, below, skippedNow := ExecuteAction(f, last, a, depth);
      if !ok {
        failed := failed + 1;
      }
      direct, ran := direct + 1, ran + below;
      if skippedNow.Some? {
        last := skippedNow;
      }
      stop := false;
    }

    /** The scan cycle's script phase. */
    method RunScripts(triggered: seq<string>)
      modifies this
      ensures triggered != [] ==> State() == SC.RunCycle(setup, old(State()), triggered)
      ensures triggered == [] ==> State() == old(State())
    {
      if triggered != [] {
        pending, attempts, skips := map[], [], 0;
      }
      RunInOrder(SC.ByPriority(setup, triggered));
    }

    /** The loop of `RunScripts`. */
    method RunInOrder(ids: seq<string>)
      modifies this
      ensures State() == SC.RunAll(setup, old(State()), ids)
    {
      for i := 0 to |ids|
        invariant State() == SC.RunAll(setup, old(State()), ids[..i])
      {
        SC.RunAllUnfold(setup, old(State()), ids, i);
        var _, _, _ := ExecuteWithDepth(ids[i], 0);
      }
      assert ids[..|ids|] == ids;
    }
  }

  lemma ActionsUnfold(s: Setup, f: Frame, actions: seq<Action>, i: nat, p: Progress, depth: nat)
    requires depth < s.limits.maxCallDepth && i < |actions|
    ensures var (q, stop) := TakeAction(s, f, actions[i], p, depth);
      ExecActions(s, f, actions[i..], p, depth)
      == if stop then q else ExecActions(s, f, actions[i + 1..], q, depth)
  {
    assert actions[i..][0] == actions[i] && actions[i..][1..] == actions[i + 1..];
  }

  lemma OnErrorUnfold(s: Setup, f: Frame, actions: seq<Action>, i: nat, p: Progress, depth: nat)
    requires depth < s.limits.maxCallDepth && i < |actions|
    ensures var (q, stop) := TakeHandler(s, f, actions[i], p, depth);
      ExecOnError(s, f, actions[i..], p, depth)
      == if stop then q else ExecOnError(s, f, actions[i + 1..], q, depth)
  {
    assert actions[i..][0] == actions[i] && actions[i..][1..] == actions[i + 1..];
  }
}
