/** When a script's trigger fires (`src/scripting/triggers.rs`).  The clock and what the context and
    the calendar say at a check are arguments. */
module Triggers {
  import opened Wrappers
  import opened EdgeTriggers
  import opened FunctionBlocks
  import opened ScriptContext
  import Cron

  /** A threshold without an operator asks for "more than"; without a value it never fires. */
  datatype Kind =
    | Threshold(op: Option<Comparison>, value: Option<Value>)
    | Change
    | Schedule(cron: Option<string>)
    | Interval(secs: Option<nat>)
    | GpioChange
    | Manual
    | Startup

  datatype Trigger = Trigger(kind: Kind, debounceMs: Option<nat>)

  /** A check: what the trigger's source reads, if there is anything, and what the calendar says. */
  datatype Look = Look(now: nat, value: Option<Value>, at: Cron.Moment)

  datatype TriggerState = TriggerState(lastTriggered: nat, previous: Option<Value>, isTriggered: bool)

  const UNTOUCHED := TriggerState(0, None, false)

  function IntervalMs(secs: Option<nat>): nat {
    if secs.Some? then secs.value * 1000 else 60_000
  }

  /** Unsigned subtraction, which wraps if the clock was set back. */
  function Since(last: nat, now: nat): int {
    if now >= last then now - last else now - last + 0x1_0000_0000_0000_0000
  }

  predicate Debounced(t: Trigger, s: TriggerState, now: nat) {
    t.debounceMs.Some? && Since(s.lastTriggered, now) < t.debounceMs.value
  }

  /** The value read is on the side of its threshold that the trigger asks for. */
  predicate Met(t: Trigger, x: Look) {
    && t.kind.Threshold? && t.kind.value.Some? && x.value.Some?
    && ThresholdMet(if t.kind.op.Some? then t.kind.op.value else Gt, x.value.value, t.kind.value.value)
  }

  function Evaluate(t: Trigger, s: TriggerState, x: Look): (TriggerState, bool) {
    match t.kind
    case Threshold(_, value) =>
      if x.value.None? || value.None? then (s, false)
      else (s.(isTriggered := Met(t, x)), Met(t, x) && !s.isTriggered)
    case Change =>
      if x.value.None? then (s, false)
      else (s.(previous := x.value), s.previous != x.value)
    case Schedule(cron) => (s, cron.Some? && Cron.IsDue(cron.value, x.at))
    case Interval(secs) => (s, Max(x.now - s.lastTriggered, 0) >= IntervalMs(secs))
    case GpioChange =>
      if x.value.None? then (s, false)
      else (s.(previous := x.value), s.previous.Some? && s.previous != x.value)
    case Manual => (s, false)
    case Startup => (s, false)
  }

  function Check(t: Trigger, s: TriggerState, x: Look): (TriggerState, bool) {
    if Debounced(t, s, x.now) then (s, false)
    else
      var (s', fires) := Evaluate(t, s, x);
      (if fires then s'.(lastTriggered := x.now) else s', fires)
  }

  function StateOf(states: States, key: Key): TriggerState {
    if key in states then states[key] else UNTOUCHED
  }

  /** A script with its triggers and what each of them would see if it were checked now. */
  datatype Active = Active(id: string, triggers: seq<Trigger>, looks: seq<Look>) {
    predicate Valid() {
      |looks| == |triggers|
    }
  }

  /** One trigger of one script. */
  datatype Key = Key(script: string, index: nat)

  type States = map<Key, TriggerState>

  /** The triggers of one script from `i` on, until one fires. */
  function CheckFrom(states: States, a: Active, i: nat): (States, bool)
    requires a.Valid() && i <= |a.triggers|
    decreases |a.triggers| - i
  {
    if i == |a.triggers| then (states, false)
    else
      var r := Check(a.triggers[i], StateOf(states, Key(a.id, i)), a.looks[i]);
      var states' := states[Key(a.id, i) := r.0];
      if r.1 then (states', true) else CheckFrom(states', a, i + 1)
  }

  /** All scripts in turn; the result lists those of which a trigger fired. */
  function CheckAll(states: States, active: seq<Active>): (States, seq<string>)
    requires forall a | a in active :: a.Valid()
  {
    if active == [] then (states, [])
    else
      assert forall a | a in active[..|active| - 1] :: a in active;
      var (before, fired) := CheckAll(states, active[..|active| - 1]);
      var a := active[|active| - 1];
      var (after, fires) := CheckFrom(before, a, 0);
      (after, if fires && a.id !in fired then fired + [a.id] else fired)
  }

  class TriggerManager {
    var states: States

    constructor ()
      ensures states == map[]
    {
      states := map[];
    }

    /** Only the state of that trigger changes. */
    method CheckTrigger(script: string, index: nat, t: Trigger, x: Look) returns (fires: bool)
      modifies this
      ensures var r := Check(t, StateOf(old(states), Key(script, index)), x);
        fires == r.1 && states == old(states)[Key(script, index) := r.0]
    {
      var key := Key(script, index);
      if key !in states {
        states := states[key := UNTOUCHED];
      }
      if t.debounceMs.Some? {
        if Since(states[key].lastTriggered, x.now) < t.debounceMs.value {
          assert states == states[key := states[key]];
          return false;
        }
      }
      var s := states[key];
      fires := false;
      match t.kind {
        case Threshold(operator, value) =>
          if x.value.Some? && value.Some? {
            var op := if operator.Some? then operator.value else Gt;
            var met := ThresholdMet(op, x.value.value, value.value);
            fires := met && !s.isTriggered;
            s := s.(isTriggered := met);
          }
        case Change =>
          if x.value.Some? {
            fires := s.previous.None? || s.previous != x.value;
            s := s.(previous := x.value);
          }
        case Schedule(cron) =>
          fires := cron.Some? && Cron.IsDue(cron.value, x.at);
        case Interval(secs) =>
          fires := Max(x.now - s.lastTriggered, 0) >= IntervalMs(secs);
        case GpioChange =>
          if x.value.Some? {
            fires := s.previous.Some? && s.previous != x.value;
            s := s.(previous := x.value);
          }
        case Manual =>
        case Startup =>
      }
      if fires {
        s := s.(lastTriggered := x.now);
      }
      states := states[key := s];
    }

    /** The loop over one script's triggers, which stops at the first that fires. */
    method CheckScript(a: Active) returns (fires: bool)
      requires a.Valid()
      modifies this
      ensures (states, fires) == CheckFrom(old(states), a, 0)
    {
      fires := false;
      var i := 0;
      while i < |a.triggers| && !fires
        invariant 0 <= i <= |a.triggers|
        invariant CheckFrom(old(states), a, 0) == if fires then (states, true) else CheckFrom(states, a, i)
      {
        fires := CheckTrigger(a.id, i, a.triggers[i], a.looks[i]);
        i := i + 1;
      }
    }

    /** The loop over the active scripts.  Putting the result in order is `ByPriority`. */
    method CheckAllTriggers(active: seq<Active>) returns (fired: seq<string>)
      requires forall a | a in active :: a.Valid()
      modifies this
      ensures (states, fired) == CheckAll(old(states), active)
    {
      fired := [];
      for i := 0 to |active|
        invariant forall a | a in active[..i] :: a in active
        invariant (states, fired) == CheckAll(old(states), active[..i])
      {
        assert active[..i + 1][..i] == active[..i] && active[i] in active;
        var fires := CheckScript(active[i]);
        if fires && active[i].id !in fired {
          fired := fired + [active[i].id];
        }
      }
      assert active[..|active|] == active;
    }
  }

  // ---- Scripts do not see each other's triggers ----

  /** A trigger of the script would fire, going by the states before the check. */
  ghost predicate WouldFire(states: States, a: Active)
    requires a.Valid()
  {
    exists i | 0 <= i < |a.triggers| :: Check(a.triggers[i], StateOf(states, Key(a.id, i)), a.looks[i]).1
  }

  /** Stopping at the first that fires loses no script, and leaves the states of all other scripts
      and of all later triggers alone. */
  lemma {:induction false} CheckFromFires(states: States, a: Active, i: nat)
    requires a.Valid() && i <= |a.triggers|
    ensures var (after, fires) := CheckFrom(states, a, i);
      && (fires <==> exists j | i <= j < |a.triggers| ::
            Check(a.triggers[j], StateOf(states, Key(a.id, j)), a.looks[j]).1)
      && (forall key: Key | key.script != a.id || key.index < i :: StateOf(after, key) == StateOf(states, key))
      && (forall j, k | i <= j < k < |a.triggers|
            && Check(a.triggers[j], StateOf(states, Key(a.id, j)), a.looks[j]).1 ::
            StateOf(after, Key(a.id, k)) == StateOf(states, Key(a.id, k)))
    decreases |a.triggers| - i
  {
    if i < |a.triggers| {
      var r := Check(a.triggers[i], StateOf(states, Key(a.id, i)), a.looks[i]);
      var next := states[Key(a.id, i) := r.0];
      assert forall key | key != Key(a.id, i) :: StateOf(next, key) == StateOf(states, key);
      if !r.1 {
        CheckFromFires(next, a, i + 1);
      }
    }
  }

  ghost function ThatWouldFire(states: States, active: seq<Active>): seq<string>
    requires forall a | a in active :: a.Valid()
  {
    if active == [] then []
    else
      assert forall a | a in active[..|active| - 1] :: a in active;
      var a := active[|active| - 1];
      ThatWouldFire(states, active[..|active| - 1]) + if WouldFire(states, a) then [a.id] else []
  }

  /** With distinct script ids, the scripts listed are those that would fire going by the states
      before the whole round, in the order of the active scripts. */
  lemma {:induction false} ListsThoseThatFire(states: States, active: seq<Active>)
    requires forall a | a in active :: a.Valid()
    requires forall i, j | 0 <= i < j < |active| :: active[i].id != active[j].id
    ensures CheckAll(states, active).1 == ThatWouldFire(states, active)
    ensures forall id | id in ThatWouldFire(states, active) :: exists a :: a in active && a.id == id
    ensures forall key: Key | (forall a | a in active :: a.id != key.script) ::
      StateOf(CheckAll(states, active).0, key) == StateOf(states, key)
  {
    if active != [] {
      var n := |active| - 1;
      var earlier, a := active[..n], active[n];
      assert active == earlier + [a];
      ListsThoseThatFire(states, earlier);
      var before := CheckAll(states, earlier).0;
      forall i: nat ensures StateOf(before, Key(a.id, i)) == StateOf(states, Key(a.id, i)) {
        assert forall b | b in earlier :: b.id != a.id;
      }
      CheckFromFires(before, a, 0);
      assert a.id !in ThatWouldFire(states, earlier);
    }
  }

  /** No script is listed twice, whatever the scripts are called. */
  lemma {:induction false} ListsOnce(states: States, active: seq<Active>)
    requires forall a | a in active :: a.Valid()
    ensures Distinct(CheckAll(states, active).1)
  {
    if active != [] {
      assert forall a | a in active[..|active| - 1] :: a in active;
      ListsOnce(states, active[..|active| - 1]);
    }
  }

  // ---- Histories of checks of one trigger ----

  ghost predicate InOrder(h: seq<Look>) {
    forall i, j | 0 <= i < j < |h| :: h[i].now <= h[j].now
  }

  ghost function Run(t: Trigger, h: seq<Look>): TriggerState {
    if h == [] then UNTOUCHED else Check(t, Run(t, h[..|h| - 1]), h[|h| - 1]).0
  }

  /** The last check of the history fires. */
  ghost predicate Fires(t: Trigger, h: seq<Look>) {
    h != [] && Check(t, Run(t, h[..|h| - 1]), h[|h| - 1]).1
  }

  /** The time of the last firing, zero if there was none. */
  ghost function LastFiring(t: Trigger, h: seq<Look>): nat {
    if h == [] then 0
    else if Fires(t, h) then h[|h| - 1].now
    else LastFiring(t, h[..|h| - 1])
  }

  lemma {:induction false} StateKeepsLastFiring(t: Trigger, h: seq<Look>)
    ensures Run(t, h).lastTriggered == LastFiring(t, h)
  {
    if h != [] {
      StateKeepsLastFiring(t, h[..|h| - 1]);
    }
  }

  lemma {:induction false} LastFiringIsLatest(t: Trigger, h: seq<Look>, k: nat)
    requires InOrder(h) && 0 < k <= |h| && Fires(t, h[..k])
    ensures LastFiring(t, h) >= h[k - 1].now
    decreases |h|
  {
    if k < |h| {
      assert h[..|h| - 1][..k] == h[..k];
      LastFiringIsLatest(t, h[..|h| - 1], k);
    } else {
      assert h[..k] == h;
    }
  }

  lemma {:induction false} LastFiringIsPast(t: Trigger, h: seq<Look>, now: nat)
    requires InOrder(h) && (h != [] ==> h[|h| - 1].now <= now)
    ensures LastFiring(t, h) <= now
  {
    if h != [] {
      LastFiringIsPast(t, h[..|h| - 1], now);
    }
  }

  /** A minute, if nothing is said. */
  function IntervalOf(secs: Option<nat>): nat {
    if secs.Some? then secs.value * 1000 else 60_000
  }

  /** The least time between two firings. */
  function Spacing(t: Trigger): nat {
    Max(if t.debounceMs.Some? then t.debounceMs.value else 0,
        if t.kind.Interval? then IntervalOf(t.kind.secs) else 0)
  }

  /** Two firings of a trigger are at least its debounce time apart, and its interval. */
  lemma {:induction false} FiringsAreApart(t: Trigger, h: seq<Look>, k: nat)
    requires InOrder(h) && 0 < k < |h| && Fires(t, h[..k]) && Fires(t, h)
    ensures h[|h| - 1].now - h[k - 1].now >= Spacing(t)
  {
    var earlier := h[..|h| - 1];
    assert earlier[..k] == h[..k];
    LastFiringIsLatest(t, earlier, k);
    LastFiringIsPast(t, earlier, h[|h| - 1].now);
    StateKeepsLastFiring(t, earlier);
  }

  /** The last check is not within the debounce time of a firing, or of the epoch.  If the clock was
      set back behind the firing, the time since is taken to be enormous. */
  ghost predicate Settled(t: Trigger, h: seq<Look>)
    requires h != []
  {
    var now, last := h[|h| - 1].now, LastFiring(t, h[..|h| - 1]);
    t.debounceMs.Some? ==>
      (if now >= last then now - last else now - last + 0x1_0000_0000_0000_0000) >= t.debounceMs.value
  }

  lemma SettledExactly(t: Trigger, h: seq<Look>)
    requires h != []
    ensures Settled(t, h) <==> !Debounced(t, Run(t, h[..|h| - 1]), h[|h| - 1].now)
  {
    StateKeepsLastFiring(t, h[..|h| - 1]);
  }

  /** An interval trigger fires at a check exactly when its interval and its debounce time have
      passed since it last fired, or since the epoch. */
  lemma IntervalFiresWhenDueExactly(t: Trigger, h: seq<Look>)
    requires t.kind.Interval? && h != []
    ensures Fires(t, h) <==>
      Settled(t, h) && Max(h[|h| - 1].now - LastFiring(t, h[..|h| - 1]), 0) >= IntervalOf(t.kind.secs)
  {
    SettledExactly(t, h);
    StateKeepsLastFiring(t, h[..|h| - 1]);
  }

  // ---- Changes ----

  /** The last value read at a check that was not debounced. */
  ghost function LastRead(t: Trigger, h: seq<Look>): Option<Value> {
    if h == [] then None
    else if Settled(t, h) && h[|h| - 1].value.Some? then h[|h| - 1].value
    else LastRead(t, h[..|h| - 1])
  }

  lemma {:induction false} StateKeepsLastRead(t: Trigger, h: seq<Look>)
    requires t.kind.Change? || t.kind.GpioChange?
    ensures Run(t, h).previous == LastRead(t, h)
  {
    if h != [] {
      SettledExactly(t, h);
      StateKeepsLastRead(t, h[..|h| - 1]);
    }
  }

  /** A change trigger fires at a check exactly when it is not debounced and reads a value other
      than the last it read, or the first. */
  lemma ChangeFiresExactly(t: Trigger, h: seq<Look>)
    requires t.kind.Change? && h != []
    ensures Fires(t, h) <==>
      Settled(t, h) && h[|h| - 1].value.Some? && h[|h| - 1].value != LastRead(t, h[..|h| - 1])
  {
    SettledExactly(t, h);
    StateKeepsLastRead(t, h[..|h| - 1]);
  }

  /** A pin trigger does so too, but not at the first value. */
  lemma GpioChangeFiresExactly(t: Trigger, h: seq<Look>)
    requires t.kind.GpioChange? && h != []
    ensures Fires(t, h) <==>
      && Settled(t, h) && h[|h| - 1].value.Some?
      && LastRead(t, h[..|h| - 1]).Some? && h[|h| - 1].value != LastRead(t, h[..|h| - 1])
  {
    SettledExactly(t, h);
    StateKeepsLastRead(t, h[..|h| - 1]);
  }

  // ---- Schedules ----

  /** A schedule trigger fires at a check exactly when it is not debounced and all five fields of its
      expression mean the moment. */
  lemma ScheduleFiresExactly(t: Trigger, h: seq<Look>, minute: Cron.Field, hour: Cron.Field, day: Cron.Field,
                             month: Cron.Field, weekday: Cron.Field, g: Cron.Gaps)
    requires Cron.Printable(minute) && Cron.Printable(hour) && Cron.Printable(day)
    requires Cron.Printable(month) && Cron.Printable(weekday) && Cron.AreGaps(g)
    requires t.kind == Schedule(Some(Cron.Expression(minute, hour, day, month, weekday, g))) && h != []
    ensures var at := h[|h| - 1].at;
      Fires(t, h) <==>
        && Settled(t, h)
        && Cron.Means(minute, at.minute) && Cron.Means(hour, at.hour) && Cron.Means(day, at.day)
        && Cron.Means(month, at.month) && Cron.Means(weekday, at.weekday)
  {
    SettledExactly(t, h);
    Cron.ScheduleMeansItsFields(minute, hour, day, month, weekday, g, h[|h| - 1].at);
  }

  /** Triggers that nothing read from outside makes fire: those for commands and for the start, and
      those that lack what they compare with. */
  lemma NeverFire(t: Trigger, h: seq<Look>)
    requires t.kind.Manual? || t.kind.Startup? || t.kind == Schedule(None) || (t.kind.Threshold? && t.kind.value.None?)
    ensures !Fires(t, h)
  {
  }

  // ---- Thresholds ----

  ghost predicate Comparing(t: Trigger) {
    t.kind.Threshold? && t.kind.value.Some?
  }

  /** The last check is evaluated: it is not within the debounce time of a firing, and there are
      values to compare. */
  ghost predicate Seen(t: Trigger, h: seq<Look>) {
    h != [] && Settled(t, h) && h[|h| - 1].value.Some?
  }

  /** What the comparison came to at the checks that were evaluated. */
  ghost function SeenConditions(t: Trigger, h: seq<Look>): seq<bool> {
    if h == [] then []
    else SeenConditions(t, h[..|h| - 1]) + if Seen(t, h) then [Met(t, h[|h| - 1])] else []
  }

  /** A threshold trigger is a rising-edge detector of its condition over those checks. */
  lemma {:induction false} ThresholdDetectsEdges(t: Trigger, h: seq<Look>)
    requires Comparing(t)
    ensures Run(t, h).isTriggered == RisingRun(SeenConditions(t, h)).prevClk
    ensures Fires(t, h) <==> Seen(t, h) && RisingRun(SeenConditions(t, h)).q
  {
    if h != [] {
      var earlier := SeenConditions(t, h[..|h| - 1]);
      ThresholdDetectsEdges(t, h[..|h| - 1]);
      SettledExactly(t, h);
      if Seen(t, h) {
        var now := earlier + [Met(t, h[|h| - 1])];
        assert now[..|now| - 1] == earlier;
      }
    }
  }

  ghost predicate AlwaysRead(h: seq<Look>) {
    forall x | x in h :: x.value.Some?
  }

  /** The clock has left the first debounce time after the epoch behind. */
  ghost predicate PastEpoch(t: Trigger, h: seq<Look>) {
    t.debounceMs.Some? ==> forall x | x in h :: x.now >= t.debounceMs.value
  }

  /** Within the debounce time of a firing the state is as the firing left it. */
  lemma {:induction false} DebouncedIsTriggered(t: Trigger, h: seq<Look>, now: nat)
    requires Comparing(t) && InOrder(h) && h != [] && h[|h| - 1].now <= now
    requires PastEpoch(t, h) && Debounced(t, Run(t, h), now)
    ensures Run(t, h).isTriggered
  {
    var n := |h| - 1;
    var earlier := h[..n];
    assert forall x | x in earlier :: x in h;
    StateKeepsLastFiring(t, earlier);
    StateKeepsLastFiring(t, h);
    LastFiringIsPast(t, earlier, h[n].now);
    if !Fires(t, h) {
      assert h[n] in h;
      if n > 0 {
        DebouncedIsTriggered(t, earlier, now);
      }
    }
  }

  /** When the condition becomes true at the last check, the trigger fires exactly if neither that
      check nor the one before falls within the debounce time of a firing. */
  lemma EdgeFiresExactly(t: Trigger, h: seq<Look>)
    requires Comparing(t) && InOrder(h) && AlwaysRead(h) && PastEpoch(t, h)
    requires h != [] && Met(t, h[|h| - 1]) && (|h| > 1 ==> !Met(t, h[|h| - 2]))
    ensures Fires(t, h) <==> Seen(t, h) && (|h| > 1 ==> Seen(t, h[..|h| - 1]))
  {
    var n := |h| - 1;
    assert h[n] in h;
    if n > 0 {
      var earlier := h[..n];
      assert earlier[n - 1] == h[n - 1] && h[n - 1] in h;
      assert forall x | x in earlier[..n - 1] :: x in h;
      SettledExactly(t, h);
      SettledExactly(t, earlier);
      if !Seen(t, earlier) && n > 1 {
        DebouncedIsTriggered(t, earlier[..n - 1], h[n - 1].now);
      }
    }
  }

  /** Otherwise the edge is lost: while the condition stays true the trigger does not fire, not
      even once the debounce time is over. */
  lemma {:induction false} LostEdgeNeverFires(t: Trigger, h: seq<Look>, more: seq<Look>)
    requires Comparing(t) && InOrder(h + more) && AlwaysRead(h + more) && PastEpoch(t, h + more)
    requires h != [] && Met(t, h[|h| - 1]) && !Fires(t, h)
    requires forall x | x in more :: Met(t, x)
    ensures !Fires(t, h + more) && Run(t, h + more).isTriggered
    decreases |more|
  {
    var all := h + more;
    if more == [] {
      assert all == h;
      MetIsTriggered(t, h);
    } else {
      var n := |more| - 1;
      assert all[..|all| - 1] == h + more[..n] && all[|all| - 1] == more[n];
      assert more[n] in more;
      LostEdgeNeverFires(t, h, more[..n]);
    }
  }

  lemma MetIsTriggered(t: Trigger, h: seq<Look>)
    requires Comparing(t) && InOrder(h) && AlwaysRead(h) && PastEpoch(t, h)
    requires h != [] && Met(t, h[|h| - 1])
    ensures Run(t, h).isTriggered
  {
    var n := |h| - 1;
    assert h[n] in h;
    assert forall x | x in h[..n] :: x in h;
    SettledExactly(t, h);
    if !Seen(t, h) && n > 0 {
      DebouncedIsTriggered(t, h[..n], h[n].now);
    }
  }

  /** It does happen, with a debounce time of 100 ms: a firing, the value back to its threshold and
      above it again within the debounce time, and no firing when that is over. */
  lemma AnEdgeIsLost(at: Cron.Moment)
    ensures var t := Trigger(Threshold(None, Some(IntV(28))), Some(100));
      var h := [Look(1000, Some(RealV(28.5)), at), Look(1020, Some(RealV(28.0)), at),
                Look(1050, Some(RealV(28.5)), at), Look(1200, Some(RealV(28.5)), at)];
      Fires(t, h[..1]) && !Fires(t, h[..2]) && !Fires(t, h[..3]) && !Fires(t, h)
  {
    var t := Trigger(Threshold(None, Some(IntV(28))), Some(100));
    var h := [Look(1000, Some(RealV(28.5)), at), Look(1020, Some(RealV(28.0)), at),
              Look(1050, Some(RealV(28.5)), at), Look(1200, Some(RealV(28.5)), at)];
    var fired := TriggerState(1000, None, true);
    assert h[..3][..2] == h[..2] && h[..2][..1] == h[..1] && h[..1][..0] == [];
    assert Run(t, h[..1]) == fired;
    assert Run(t, h[..2]) == fired;
    assert Run(t, h[..3]) == fired;
  }
}
