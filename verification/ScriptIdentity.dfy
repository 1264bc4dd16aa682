/** Under whose name and priority hardware writes reach the conflict detector. */
module ScriptIdentity {
  import opened Wrappers
  import opened ScriptContext
  import opened ScriptEngine
  import CD = ConflictDetector

  ghost function Requests(attempts: seq<Attempt>): seq<CD.Request> {
    if attempts == [] then []
    else Requests(attempts[..|attempts| - 1]) + [attempts[|attempts| - 1].request]
  }

  /** Whose identity is in force in a frame of `owner`: that of the last script it called that
      was skipped, if there was one. */
  function InForce(owner: string, afterSkip: Option<string>): string {
    if afterSkip.Some? then afterSkip.value else owner
  }

  ghost predicate Filed(s: Setup, a: Attempt) {
    var id := InForce(a.owner, a.afterSkip);
    && a.owner in s.scripts && id in s.scripts
    && a.request.write.scriptId == id
    && a.request.write.priority == s.scripts[id].priority
  }

  /** Every write so far was filed under the identity in force, without a skip that is the
      owner's, and the detector has seen exactly these writes. */
  ghost predicate LogOk(s: Setup, attempts: seq<Attempt>, skips: nat, pending: map<CD.Target, CD.PendingWrite>) {
    && (forall a | a in attempts :: Filed(s, a))
    && (skips == 0 ==> forall a | a in attempts :: a.afterSkip == None)
    && pending == CD.Run(map[], Requests(attempts))
  }

  ghost predicate WorldOk(s: Setup, w: World) {
    LogOk(s, w.attempts, w.skips, w.pending)
  }

  ghost predicate IdentityIs(s: Setup, w: World, id: string) {
    id in s.scripts && w.current == Some(id) && w.priority == s.scripts[id].priority
  }

  ghost predicate FrameOk(s: Setup, w: World, f: Frame, skipped: Option<string>) {
    && WorldOk(s, w)
    && f.script in s.scripts
    && IdentityIs(s, w, InForce(f.script, skipped))
    && (w.skips == 0 ==> skipped == None)
  }

  ghost predicate SameIdentity(w: World, w': World) {
    w'.current == w.current && w'.priority == w.priority
  }

  lemma AttemptIsFiled(s: Setup, w: World, w': World, a: Attempt)
    requires WorldOk(s, w) && Filed(s, a) && (w.skips == 0 ==> a.afterSkip == None)
    requires w'.attempts == w.attempts + [a] && w'.skips == w.skips
    requires w'.pending == CD.Check(w.pending, a.request).0
    ensures WorldOk(s, w')
  {
    var more := w'.attempts;
    assert more[..|more| - 1] == w.attempts && more[|more| - 1] == a;
    assert Requests(more) == Requests(w.attempts) + [a.request];
    var requests := Requests(more);
    assert requests[..|requests| - 1] == Requests(w.attempts);
  }

  lemma WriteIsFiled(s: Setup, w: World, f: Frame, skipped: Option<string>, t: CD.Target, v: CD.WriteValue)
    requires FrameOk(s, w, f, skipped)
    ensures var r := ExecWrite(s, w, f, skipped, t, v);
            FrameOk(s, r.w, f, skipped) && w.attempts <= r.w.attempts && r.w.skips == w.skips
  {
    var r := ExecWrite(s, w, f, skipped, t, v);
    AttemptIsFiled(s, w, r.w, r.w.attempts[|w.attempts|]);
  }

  /** What holds of a script's outcome. */
  ghost predicate Returned(s: Setup, w: World, id: string, o: Outcome) {
    && WorldOk(s, o.w) && w.attempts <= o.w.attempts && o.w.skips >= w.skips
    && (if o.skipped then IdentityIs(s, o.w, id) else SameIdentity(w, o.w))
  }

  lemma CallKeepsIdentity(s: Setup, w: World, f: Frame, skipped: Option<string>, id: string, o: Outcome)
    requires FrameOk(s, w, f, skipped) && Returned(s, w, id, o)
    ensures if o.skipped then FrameOk(s, o.w.(skips := o.w.skips + 1), f, Some(id))
            else FrameOk(s, o.w, f, skipped)
  {
  }

  lemma CallIsFiled(s: Setup, w: World, f: Frame, skipped: Option<string>, a: Action, depth: nat)
    requires depth < s.limits.maxCallDepth && FrameOk(s, w, f, skipped)
    requires a.op.CallScript? && !(a.condition.Some? && !Holds(w.context, a.condition.value))
    requires Returned(s, w, a.op.script, ExecScript(s, w, a.op.script, depth + 1))
    ensures var r := ExecAction(s, w, f, skipped, a, depth);
      && FrameOk(s, r.w, f, if r.skipped.Some? then r.skipped else skipped)
      && w.attempts <= r.w.attempts && r.w.skips >= w.skips
  {
    CallKeepsIdentity(s, w, f, skipped, a.op.script, ExecScript(s, w, a.op.script, depth + 1));
  }

  lemma PlainActionIsFiled(s: Setup, w: World, f: Frame, skipped: Option<string>, a: Action, depth: nat)
    requires depth < s.limits.maxCallDepth && FrameOk(s, w, f, skipped)
    requires !a.op.Write? && !a.op.CallScript?
    ensures var r := ExecAction(s, w, f, skipped, a, depth);
      && FrameOk(s, r.w, f, skipped) && r.skipped == None
      && w.attempts == r.w.attempts && r.w.skips == w.skips
  {
    var r := ExecAction(s, w, f, skipped, a, depth);
    assert r.skipped == None && r.w == w.(context := r.w.context, tick := r.w.tick);
    OnlyTheContextChanges(s, w, r.w, f, skipped);
  }

  lemma OnlyTheContextChanges(s: Setup, w: World, w': World, f: Frame, skipped: Option<string>)
    requires FrameOk(s, w, f, skipped) && w' == w.(context := w'.context, tick := w'.tick)
    ensures FrameOk(s, w', f, skipped)
  {
  }

  lemma {:induction false} ActionIsFiled(s: Setup, w: World, f: Frame, skipped: Option<string>, a: Action, depth: nat)
    requires depth < s.limits.maxCallDepth && FrameOk(s, w, f, skipped)
    ensures var r := ExecAction(s, w, f, skipped, a, depth);
      && FrameOk(s, r.w, f, if r.skipped.Some? then r.skipped else skipped)
      && w.attempts <= r.w.attempts && r.w.skips >= w.skips
    decreases s.limits.maxCallDepth - depth, 0, 0
  {
    if !(a.condition.Some? && !Holds(w.context, a.condition.value)) {
      if a.op.Write? {
        WriteIsFiled(s, w, f, skipped, a.op.target, a.op.value);
      } else if a.op.CallScript? {
        ScriptIsFiled(s, w, a.op.script, depth + 1);
        CallIsFiled(s, w, f, skipped, a, depth);
      } else {
        PlainActionIsFiled(s, w, f, skipped, a, depth);
      }
    }
  }

  /** How far a frame has come keeps to its identity, and nothing that was filed is lost. */
  ghost predicate GoesOn(s: Setup, f: Frame, p: Progress, q: Progress) {
    FrameOk(s, q.w, f, q.skipped) && p.w.attempts <= q.w.attempts && q.w.skips >= p.w.skips
  }

  lemma TickChangesNothing(s: Setup, w: World, w': World, f: Frame, skipped: Option<string>)
    requires FrameOk(s, w, f, skipped) && w' == w.(tick := w'.tick)
    ensures FrameOk(s, w', f, skipped)
  {
  }

  lemma ActionGoesOn(s: Setup, w: World, f: Frame, a: Action, p: Progress, counted: bool, depth: nat)
    requires depth < s.limits.maxCallDepth && FrameOk(s, p.w, f, p.skipped) && w == p.w.(tick := w.tick)
    ensures GoesOn(s, f, p, Advance(p, ExecAction(s, w, f, p.skipped, a, depth), counted))
    decreases s.limits.maxCallDepth - depth, 0, 1
  {
    TickChangesNothing(s, p.w, w, f, p.skipped);
    ActionIsFiled(s, w, f, p.skipped, a, depth);
  }

  lemma {:induction false} TurnIsFiled(s: Setup, f: Frame, a: Action, p: Progress, depth: nat)
    requires depth < s.limits.maxCallDepth && FrameOk(s, p.w, f, p.skipped)
    ensures GoesOn(s, f, p, TakeAction(s, f, a, p, depth).0)
    decreases s.limits.maxCallDepth - depth, 1, 0
  {
    var late := Late(s, f, p.w.tick + 1);
    if !Late(s, f, p.w.tick) && (late || p.used < s.limits.maxActionsPerRun) {
      ActionGoesOn(s, p.w.(tick := p.w.tick + 2), f, a, p, !late, depth);
    } else {
      TickChangesNothing(s, p.w, TakeAction(s, f, a, p, depth).0.w, f, p.skipped);
    }
  }

  lemma {:induction false} ActionsAreFiled(s: Setup, f: Frame, actions: seq<Action>, p: Progress, depth: nat)
    requires depth < s.limits.maxCallDepth && FrameOk(s, p.w, f, p.skipped)
    ensures GoesOn(s, f, p, ExecActions(s, f, actions, p, depth))
    decreases s.limits.maxCallDepth - depth, 2, |actions|
  {
    if actions != [] {
      var (q, stop) := TakeAction(s, f, actions[0], p, depth);
      TurnIsFiled(s, f, actions[0], p, depth);
      if !stop {
        ActionsAreFiled(s, f, actions[1..], q, depth);
      }
    }
  }

  lemma {:induction false} HandlerIsFiled(s: Setup, f: Frame, a: Action, p: Progress, depth: nat)
    requires depth < s.limits.maxCallDepth && FrameOk(s, p.w, f, p.skipped)
    ensures GoesOn(s, f, p, TakeHandler(s, f, a, p, depth).0)
    decreases s.limits.maxCallDepth - depth, 1, 0
  {
    if !Late(s, f, p.w.tick) && p.used < s.limits.maxActionsPerRun {
      ActionGoesOn(s, p.w.(tick := p.w.tick + 1), f, a, p, true, depth);
    } else {
      TickChangesNothing(s, p.w, p.w.(tick := p.w.tick + 1), f, p.skipped);
    }
  }

  lemma {:induction false} OnErrorIsFiled(s: Setup, f: Frame, actions: seq<Action>, p: Progress, depth: nat)
    requires depth < s.limits.maxCallDepth && FrameOk(s, p.w, f, p.skipped)
    ensures GoesOn(s, f, p, ExecOnError(s, f, actions, p, depth))
    decreases s.limits.maxCallDepth - depth, 2, |actions|
  {
    if actions != [] {
      var (q, stop) := TakeHandler(s, f, actions[0], p, depth);
      HandlerIsFiled(s, f, actions[0], p, depth);
      if !stop {
        OnErrorIsFiled(s, f, actions[1..], q, depth);
      }
    }
  }

  /** Any script, at any depth, on any call graph: its writes, and those of all it calls, are
      filed under the identity in force, and it puts the caller's identity back unless it was
      skipped. */
  lemma {:induction false} ScriptIsFiled(s: Setup, w: World, id: string, depth: nat)
    requires WorldOk(s, w)
    ensures Returned(s, w, id, ExecScript(s, w, id, depth))
    decreases Max(s.limits.maxCallDepth - depth, 0), 4, 0
  {
    var (w1, admitted) := PassLimiter(s, w, id);
    if depth < s.limits.maxCallDepth && admitted && id in s.scripts {
      var w2 := w1.(current := Some(id), priority := s.scripts[id].priority);
      if AllHold(w2.context, s.scripts[id].conditions) {
        var f := Frame(id, s.samples(w2.tick).now);
        var begun := Progress(w2.(tick := w2.tick + 1), 0, 0, 0, 0, None);
        ActionsAreFiled(s, f, s.scripts[id].actions, begun, depth);
        var acted := ExecActions(s, f, s.scripts[id].actions, begun, depth);
        if acted.failed > 0 {
          OnErrorIsFiled(s, f, s.scripts[id].onError, acted, depth);
        }
      }
    }
  }

  // ---- What this means ----

  /** Before anything has run in a cycle. */
  ghost predicate Clean(w: World) {
    w.attempts == [] && w.pending == map[] && w.skips == 0
  }

  /** A call gets as far as its conditions and fails them: it is not too deep, the limiter admits
      it, the script is there, and one of its conditions does not hold. */
  predicate WillSkip(s: Setup, w: World, id: string, depth: nat) {
    && depth < s.limits.maxCallDepth
    && PassLimiter(s, w, id).1
    && id in s.scripts
    && !AllHold(w.context, s.scripts[id].conditions)
  }

  /** In every world a call leaves the identity of the caller in force exactly when it will not be
      skipped, or calls the very script whose identity is in force. */
  lemma IdentityKeptExactly(s: Setup, w: World, id: string, depth: nat)
    ensures SameIdentity(w, ExecScript(s, w, id, depth).w) <==> !WillSkip(s, w, id, depth) || IdentityIs(s, w, id)
  {
  }

  ghost predicate UnderOwnName(s: Setup, a: Attempt) {
    && a.owner in s.scripts
    && a.request.write.scriptId == a.owner
    && a.request.write.priority == s.scripts[a.owner].priority
  }

  /** In a whole execution from the top, a write reaches the detector under the name and
      priority of the script whose action it is exactly when that script had called none
      that was skipped before it, or the last such was itself. */
  lemma {:induction false} FiledUnderOwnNameExactly(s: Setup, w: World, id: string, a: Attempt)
    requires Clean(w) && a in ExecScript(s, w, id, 0).w.attempts
    ensures UnderOwnName(s, a) <==> InForce(a.owner, a.afterSkip) == a.owner
  {
    ScriptIsFiled(s, w, id, 0);
  }

  /** If every script that was called met its conditions, all writes are filed under their own
      names, and the detector has seen them in the order in which they were made. */
  lemma {:induction false} AllFiledUnderOwnName(s: Setup, w: World, id: string)
    requires Clean(w)
    ensures var o := ExecScript(s, w, id, 0);
      && o.w.pending == CD.Run(map[], Requests(o.w.attempts))
      && (o.w.skips == 0 ==> forall a | a in o.w.attempts :: UnderOwnName(s, a))
  {
    ScriptIsFiled(s, w, id, 0);
  }

  // ---- Setups that cannot leak ----

  /** Whatever the action calls has no conditions to fail. */
  predicate CallsFreely(s: Setup, a: Action) {
    a.op.CallScript? && a.op.script in s.scripts ==> s.scripts[a.op.script].conditions == []
  }

  ghost predicate AllCallFreely(s: Setup) {
    forall id, a | id in s.scripts && a in s.scripts[id].actions + s.scripts[id].onError :: CallsFreely(s, a)
  }

  lemma {:induction false} ActionSkipsNothing(s: Setup, w: World, f: Frame, skipped: Option<string>, a: Action,
                                              depth: nat)
    requires AllCallFreely(s) && depth < s.limits.maxCallDepth && CallsFreely(s, a)
    ensures ExecAction(s, w, f, skipped, a, depth).w.skips == w.skips
    decreases s.limits.maxCallDepth - depth, 0, 0
  {
    if a.op.CallScript? {
      ScriptSkipsNothing(s, w, a.op.script, depth + 1);
    }
  }

  lemma {:induction false} ActionsSkipNothing(s: Setup, f: Frame, actions: seq<Action>, p: Progress, depth: nat)
    requires AllCallFreely(s) && depth < s.limits.maxCallDepth && forall a | a in actions :: CallsFreely(s, a)
    ensures ExecActions(s, f, actions, p, depth).w.skips == p.w.skips
    decreases s.limits.maxCallDepth - depth, 2, |actions|
  {
    if actions != [] {
      var (q, stop) := TakeAction(s, f, actions[0], p, depth);
      assert actions[0] in actions && forall a | a in actions[1..] :: a in actions;
      ActionSkipsNothing(s, p.w.(tick := p.w.tick + 2), f, p.skipped, actions[0], depth);
      if !stop {
        ActionsSkipNothing(s, f, actions[1..], q, depth);
      }
    }
  }

  lemma {:induction false} HandlersSkipNothing(s: Setup, f: Frame, actions: seq<Action>, p: Progress, depth: nat)
    requires AllCallFreely(s) && depth < s.limits.maxCallDepth && forall a | a in actions :: CallsFreely(s, a)
    ensures ExecOnError(s, f, actions, p, depth).w.skips == p.w.skips
    decreases s.limits.maxCallDepth - depth, 2, |actions|
  {
    if actions != [] {
      var (q, stop) := TakeHandler(s, f, actions[0], p, depth);
      assert actions[0] in actions && forall a | a in actions[1..] :: a in actions;
      ActionSkipsNothing(s, p.w.(tick := p.w.tick + 1), f, p.skipped, actions[0], depth);
      if !stop {
        HandlersSkipNothing(s, f, actions[1..], q, depth);
      }
    }
  }

  lemma {:induction false} ScriptSkipsNothing(s: Setup, w: World, id: string, depth: nat)
    requires AllCallFreely(s)
    ensures var o := ExecScript(s, w, id, depth);
      o.w.skips == w.skips && (o.skipped ==> id in s.scripts && s.scripts[id].conditions != [])
    decreases Max(s.limits.maxCallDepth - depth, 0), 4, 0
  {
    var (w1, admitted) := PassLimiter(s, w, id);
    if depth < s.limits.maxCallDepth && admitted && id in s.scripts {
      var w2 := w1.(current := Some(id), priority := s.scripts[id].priority);
      if AllHold(w2.context, s.scripts[id].conditions) {
        var f := Frame(id, s.samples(w2.tick).now);
        var begun := Progress(w2.(tick := w2.tick + 1), 0, 0, 0, 0, None);
        ActionsSkipNothing(s, f, s.scripts[id].actions, begun, depth);
        var acted := ExecActions(s, f, s.scripts[id].actions, begun, depth);
        if acted.failed > 0 {
          HandlersSkipNothing(s, f, s.scripts[id].onError, acted, depth);
        }
      }
    }
  }

  /** When no script that is called has conditions, every write of every execution, from every
      clean world and on any call graph, is filed under its own name and priority, whatever the
      clock, the limits and the hardware do. */
  lemma FreeCallsFileUnderOwnName(s: Setup, w: World, id: string)
    requires AllCallFreely(s) && Clean(w)
    ensures forall a | a in ExecScript(s, w, id, 0).w.attempts :: UnderOwnName(s, a)
  {
    ScriptSkipsNothing(s, w, id, 0);
    AllFiledUnderOwnName(s, w, id);
  }

  // ---- Setups that do ----

  /** A script that begins with a call of another and a write. */
  ghost predicate CallsThenWrites(s: Setup, caller: string, callee: string) {
    && caller in s.scripts && callee in s.scripts && caller != callee
    && var actions := s.scripts[caller].actions;
    && |actions| >= 2
    && actions[0] == Action(CallScript(callee), None)
    && actions[1].op.Write? && actions[1].condition == None
  }

  ghost predicate LimitsAdmitBoth(l: Limits) {
    l.maxCallDepth >= 2 && l.maxActionsPerRun >= 2 && l.ratePerMinute % RL.U32 > 0
  }

  /** A write of the caller is filed under the name and priority of the callee. */
  ghost predicate Leaks(s: Setup, w: World, caller: string, callee: string)
    requires callee in s.scripts
  {
    exists a: Attempt ::
      && a in ExecScript(s, w, caller, 0).w.attempts
      && a.owner == caller && a.request.write.scriptId == callee
      && a.request.write.priority == s.scripts[callee].priority
  }

  /** The call: its script is skipped, and its identity stays. */
  lemma SkippedCallStays(s: Setup, f: Frame, a: Action, p: Progress, callee: string)
    requires Standing(s) && f.start == s.samples(0).now && LimitsAdmitBoth(s.limits)
    requires a == Action(CallScript(callee), None) && callee in s.scripts && callee !in p.w.windows
    requires !AllHold(p.w.context, s.scripts[callee].conditions) && p.used == 0
    ensures var (q, stop) := TakeAction(s, f, a, p, 0);
            !stop && IdentityIs(s, q.w, callee) && q.used == 1
  {
    var o := ExecScript(s, p.w.(tick := p.w.tick + 2), callee, 1);
    assert o.skipped && IdentityIs(s, o.w, callee);
  }

  /** The write after it. */
  lemma WriteIsLent(s: Setup, f: Frame, a: Action, p: Progress, callee: string) returns (lent: Attempt)
    requires Standing(s) && f.start == s.samples(0).now && LimitsAdmitBoth(s.limits)
    requires a.op.Write? && a.condition == None && IdentityIs(s, p.w, callee) && p.used == 1
    ensures var (q, stop) := TakeAction(s, f, a, p, 0);
            !stop && lent in q.w.attempts
    ensures lent.owner == f.script && lent.request.write.scriptId == callee
    ensures lent.request.write.priority == s.scripts[callee].priority
  {
    var q := TakeAction(s, f, a, p, 0).0;
    var r := ExecWrite(s, p.w.(tick := p.w.tick + 2), f, p.skipped, a.op.target, a.op.value);
    assert !Late(s, f, p.w.tick) && !Late(s, f, p.w.tick + 1);
    assert ExecAction(s, p.w.(tick := p.w.tick + 2), f, p.skipped, a, 0) == r;
    assert q.w == r.w;
    lent := q.w.attempts[|p.w.attempts|];
  }

  /** Nothing that was filed is lost until the frame ends. */
  lemma FrameKeepsAttempts(s: Setup, w: World, id: string, q: Progress, rest: seq<Action>)
    requires 0 < s.limits.maxCallDepth && id in s.scripts
    requires var f := Frame(id, s.samples(w.tick).now);
      && FrameOk(s, q.w, f, q.skipped)
      && ExecActions(s, f, s.scripts[id].actions, Progress(w.(tick := w.tick + 1), 0, 0, 0, 0, None), 0)
         == ExecActions(s, f, rest, q, 0)
    ensures q.w.attempts <= ExecFrame(s, w, id, 0).w.attempts
  {
    var f := Frame(id, s.samples(w.tick).now);
    ActionsAreFiled(s, f, rest, q, 0);
    OnErrorIsFiled(s, f, s.scripts[id].onError, ExecActions(s, f, rest, q, 0), 0);
  }

  lemma FrameLends(s: Setup, w: World, caller: string, callee: string) returns (lent: Attempt)
    requires Standing(s) && LimitsAdmitBoth(s.limits) && CallsThenWrites(s, caller, callee)
    requires WorldOk(s, w) && IdentityIs(s, w, caller) && callee !in w.windows
    requires !AllHold(w.context, s.scripts[callee].conditions)
    ensures lent in ExecFrame(s, w, caller, 0).w.attempts
    ensures lent.owner == caller && lent.request.write.scriptId == callee
    ensures lent.request.write.priority == s.scripts[callee].priority
  {
    var f := Frame(caller, s.samples(w.tick).now);
    var actions := s.scripts[caller].actions;
    var begun := Progress(w.(tick := w.tick + 1), 0, 0, 0, 0, None);
    SkippedCallStays(s, f, actions[0], begun, callee);
    TurnIsFiled(s, f, actions[0], begun, 0);
    var called := TakeAction(s, f, actions[0], begun, 0).0;
    lent := WriteIsLent(s, f, actions[1], called, callee);
    TurnIsFiled(s, f, actions[1], called, 0);
    var wrote := TakeAction(s, f, actions[1], called, 0).0;
    TwoTurns(s, f, actions, begun, 0);
    FrameKeepsAttempts(s, w, caller, wrote, actions[2..]);
  }

  lemma TwoTurns(s: Setup, f: Frame, actions: seq<Action>, p: Progress, depth: nat)
    requires depth < s.limits.maxCallDepth && |actions| >= 2
    requires var (q, stop) := TakeAction(s, f, actions[0], p, depth);
             !stop && !TakeAction(s, f, actions[1], q, depth).1
    ensures var q := TakeAction(s, f, actions[0], p, depth).0;
            ExecActions(s, f, actions, p, depth)
            == ExecActions(s, f, actions[2..], TakeAction(s, f, actions[1], q, depth).0, depth)
  {
    assert actions[1..][0] == actions[1] && actions[1..][1..] == actions[2..];
  }

  /** The identity leaks: a script that calls another, which does not meet its conditions, makes its
      next write with the priority of the other. */
  lemma SkippedCalleeLendsItsPriority(s: Setup, w: World, caller: string, callee: string)
    requires Standing(s) && LimitsAdmitBoth(s.limits) && CallsThenWrites(s, caller, callee)
    requires Clean(w) && w.windows == map[] && AllHold(w.context, s.scripts[caller].conditions)
    requires !AllHold(w.context, s.scripts[callee].conditions)
    ensures Leaks(s, w, caller, callee)
  {
    var w2 := PassLimiter(s, w, caller).0.(current := Some(caller), priority := s.scripts[caller].priority);
    var lent := FrameLends(s, w2, caller, callee);
    assert lent in ExecScript(s, w, caller, 0).w.attempts;
  }

  /** Every setup with such a script leaks in some run, whatever the two scripts do besides. */
  lemma EverySuchSetupLeaks(s: Setup, caller: string, callee: string)
    requires LimitsAdmitBoth(s.limits) && CallsThenWrites(s, caller, callee)
    requires s.scripts[caller].conditions == [] && s.scripts[callee].conditions != []
    ensures exists samples: nat -> Sample, w: World :: Clean(w) && Leaks(s.(samples := samples), w, caller, callee)
  {
    var run := s.(samples := (i: nat) => Sample(0, true));
    var w := World(None, 0, map[], map[], NOTHING, 0, [], 0);
    assert !Holds(w.context, s.scripts[callee].conditions[0]);
    SkippedCalleeLendsItsPriority(run, w, caller, callee);
    assert Clean(w) && Leaks(s.(samples := run.samples), w, caller, callee);
  }
}
