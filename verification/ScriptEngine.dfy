/** Bounded execution of scripts that may call each other, cycles included
    (`src/scripting/engine.rs`, `src/scripting/limits.rs`).  What a run reads from outside,
    the clock and whether a hardware write or a save succeeds, comes from a stream of samples,
    one for each time it looks. */
module ScriptEngine {
  import opened Wrappers
  import opened ScriptContext
  import CD = ConflictDetector
  import RL = ScriptRateLimiter

  datatype Limits = Limits(
    maxExecutionMs: nat, maxActionsPerRun: nat, maxCallDepth: nat, maxDelayMs: nat, ratePerMinute: nat)

  datatype Condition = Condition(source: string, op: Comparison, value: Value)

  /** `Write` is a well-formed `set_gpio`, `write_modbus` or `write_coil`; `Malformed` is any
      action that lacks what it needs. */
  datatype Operation =
    | Write(target: CD.Target, value: CD.WriteValue)
    | SetVariable(name: string, content: Value, retain: bool)
    | Delay(ms: nat)
    | CallScript(script: string)
    | Notify
    | Malformed

  datatype Action = Action(op: Operation, condition: Option<Condition>)

  datatype Script = Script(
    priority: nat, conditions: seq<Condition>, actions: seq<Action>, onError: seq<Action>)

  datatype Sample = Sample(now: int, ok: bool)

  datatype Setup = Setup(scripts: map<string, Script>, limits: Limits, samples: nat -> Sample)

  /** A write as the conflict detector saw it, with the script whose action it is, and the last
      script that this one had called before and that was skipped. */
  datatype Attempt = Attempt(owner: string, afterSkip: Option<string>, request: CD.Request)

  /** The engine's fields, the number of samples read so far, and what happened: the writes
      attempted and how many called scripts were skipped. */
  datatype World = World(
    current: Option<string>, priority: nat,
    pending: map<CD.Target, CD.PendingWrite>,
    windows: map<string, RL.Window>,
    context: Context,
    tick: nat,
    attempts: seq<Attempt>,
    skips: nat)

  /** A source that reads nothing fails its condition. */
  predicate Holds(ctx: Context, c: Condition) {
    var read := GetValue(ctx, c.source);
    read.Some? && ConditionMet(c.op, read.value, c.value)
  }

  predicate AllHold(ctx: Context, conditions: seq<Condition>) {
    forall i | 0 <= i < |conditions| :: Holds(ctx, conditions[i])
  }

  /** The clock stands still. */
  ghost predicate Standing(s: Setup) {
    forall i, j :: s.samples(i).now == s.samples(j).now
  }

  // ---- What a run does ----

  /** The script being run and when it started. */
  datatype Frame = Frame(script: string, start: int)

  /** Outcome of one action: `ran` counts it and every action run below it, `skipped` is the
      script it called if that was skipped. */
  datatype Step = Step(w: World, ok: bool, ran: nat, skipped: Option<string>)

  /** How far a frame has come: actions failed, counted by the limit, run directly, run in
      all, and the last called script that was skipped. */
  datatype Progress = Progress(w: World, failed: nat, used: nat, direct: nat, ran: nat, skipped: Option<string>)

  datatype Outcome = Outcome(w: World, success: bool, ran: nat, skipped: bool)

  predicate Late(s: Setup, f: Frame, tick: nat) {
    s.samples(tick).now - f.start > s.limits.maxExecutionMs
  }

  function ExecWrite(s: Setup, w: World, f: Frame, skipped: Option<string>, t: CD.Target, v: CD.WriteValue): Step {
    var id := if w.current.Some? then w.current.value else "unknown";
    var request := CD.Request(t, CD.PendingWrite(id, w.priority, v));
    var (pending, decision) := CD.Check(w.pending, request);
    var w' := w.(pending := pending, attempts := w.attempts + [Attempt(f.script, skipped, request)]);
    match decision
    case ConflictLost => Step(w', false, 1, None)
    case Duplicate => Step(w', true, 1, None)
    case _ => Step(w'.(tick := w.tick + 1), s.samples(w.tick).ok, 1, None)
  }

  /** A retained variable is set under the name of the script in force, and saved. */
  function RetainName(current: Option<string>, name: string): string {
    (if current.Some? then current.value else "global") + ":" + name
  }

  /** No condition ever sees a retained variable. */
  lemma RetainedIsUnread(ctx: Context, current: Option<string>, name: string, v: Value, c: Condition)
    ensures Holds(ScriptContext.SetVariable(ctx, RetainName(current, name), v), c) <==> Holds(ctx, c)
  {
    var stored := RetainName(current, name);
    var script := if current.Some? then current.value else "global";
    assert stored[|script|] == ':';
    ColonIsUnread(ctx, stored, v, c.source);
  }

  function ExecAction(s: Setup, w: World, f: Frame, skipped: Option<string>, a: Action, depth: nat): Step
    requires depth < s.limits.maxCallDepth
    decreases s.limits.maxCallDepth - depth, 0, 0
  {
    if a.condition.Some? && !Holds(w.context, a.condition.value) then Step(w, true, 1, None)
    else
      match a.op
      case Write(t, v) => ExecWrite(s, w, f, skipped, t, v)
      case SetVariable(name, v, retain) =>
        if retain then
          var stored := ScriptContext.SetVariable(w.context, RetainName(w.current, name), v);
          Step(w.(context := stored, tick := w.tick + 1), s.samples(w.tick).ok, 1, None)
        else Step(w.(context := ScriptContext.SetVariable(w.context, name, v)), true, 1, None)
      case Delay(ms) => Step(w, ms <= s.limits.maxDelayMs, 1, None)
      case Notify => Step(w, true, 1, None)
      case Malformed => Step(w, false, 1, None)
      case CallScript(id) =>
        var o := ExecScript(s, w, id, depth + 1);
        if o.skipped then Step(o.w.(skips := o.w.skips + 1), o.success, 1 + o.ran, Some(id))
        else Step(o.w, o.success, 1 + o.ran, None)
  }

  function Advance(p: Progress, r: Step, counted: bool): Progress {
    Progress(r.w,
             p.failed + (if r.ok then 0 else 1),
             p.used + (if counted then 1 else 0),
             p.direct + 1,
             p.ran + r.ran,
             if r.skipped.Some? then r.skipped else p.skipped)
  }

  /** One turn of the action loop, and whether the loop ends with it.  Time is looked at twice;
      an action whose time runs out between the two looks is run without being counted. */
  function TakeAction(s: Setup, f: Frame, a: Action, p: Progress, depth: nat): (Progress, bool)
    requires depth < s.limits.maxCallDepth
    decreases s.limits.maxCallDepth - depth, 1, 0
  {
    if Late(s, f, p.w.tick) then
      (p.(w := p.w.(tick := p.w.tick + 1), failed := p.failed + 1), true)
    else
      var late := Late(s, f, p.w.tick + 1);
      var w := p.w.(tick := p.w.tick + 2);
      if !late && p.used >= s.limits.maxActionsPerRun then (p.(w := w, failed := p.failed + 1), true)
      else (Advance(p, ExecAction(s, w, f, p.skipped, a, depth), !late), false)
  }

  function ExecActions(s: Setup, f: Frame, actions: seq<Action>, p: Progress, depth: nat): Progress
    requires depth < s.limits.maxCallDepth
    decreases s.limits.maxCallDepth - depth, 2, |actions|
  {
    if actions == [] then p
    else
      var (q, stop) := TakeAction(s, f, actions[0], p, depth);
      if stop then q else ExecActions(s, f, actions[1..], q, depth)
  }

  /** One turn of the error handler loop, which only ever runs an action within the limits. */
  function TakeHandler(s: Setup, f: Frame, a: Action, p: Progress, depth: nat): (Progress, bool)
    requires depth < s.limits.maxCallDepth
    decreases s.limits.maxCallDepth - depth, 1, 0
  {
    var w := p.w.(tick := p.w.tick + 1);
    if Late(s, f, p.w.tick) || p.used >= s.limits.maxActionsPerRun then (p.(w := w), true)
    else (Advance(p, ExecAction(s, w, f, p.skipped, a, depth), true), false)
  }

  function ExecOnError(s: Setup, f: Frame, actions: seq<Action>, p: Progress, depth: nat): Progress
    requires depth < s.limits.maxCallDepth
    decreases s.limits.maxCallDepth - depth, 2, |actions|
  {
    if actions == [] then p
    else
      var (q, stop) := TakeHandler(s, f, actions[0], p, depth);
      if stop then q else ExecOnError(s, f, actions[1..], q, depth)
  }

  /** The rate limiter counts the call whether or not it lets it through. */
  function PassLimiter(s: Setup, w: World, id: string): (World, bool) {
    var (window, admitted) :=
      RL.Admit(RL.Lookup(w.windows, id), s.limits.ratePerMinute, s.samples(w.tick).now);
    (w.(windows := w.windows[id := window], tick := w.tick + 1), admitted)
  }

  /** A script that is skipped because a condition fails leaves its identity behind; every
      other way out puts the caller's back. */
  function ExecScript(s: Setup, w: World, id: string, depth: nat): Outcome
    decreases Max(s.limits.maxCallDepth - depth, 0), 4, 0
  {
    if depth >= s.limits.maxCallDepth then Outcome(w, false, 0, false)
    else
      var (w1, admitted) := PassLimiter(s, w, id);
      if !admitted || id !in s.scripts then Outcome(w1, false, 0, false)
      else
        var w2 := w1.(current := Some(id), priority := s.scripts[id].priority);
        if !AllHold(w2.context, s.scripts[id].conditions) then Outcome(w2, true, 0, true)
        else
          var done := ExecFrame(s, w2, id, depth);
          Outcome(done.w.(current := w.current, priority := w.priority),
                  done.failed == 0, done.ran, false)
  }

  /** The actions of a script whose conditions hold, then its error handlers if any failed. */
  function ExecFrame(s: Setup, w: World, id: string, depth: nat): Progress
    requires depth < s.limits.maxCallDepth && id in s.scripts
    decreases s.limits.maxCallDepth - depth, 3, 0
  {
    var f := Frame(id, s.samples(w.tick).now);
    var begun := Progress(w.(tick := w.tick + 1), 0, 0, 0, 0, None);
    var acted := ExecActions(s, f, s.scripts[id].actions, begun, depth);
    if acted.failed > 0
    then ExecOnError(s, f, s.scripts[id].onError, acted, depth).(failed := acted.failed)
    else acted
  }
}
