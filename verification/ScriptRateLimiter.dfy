/** The per-script fixed-window limiter (`src/scripting/limits.rs`).  The counter of a
    window is a 32-bit atomic, so it is kept modulo 2^32 here as it is there. */
module ScriptRateLimiter {
  import opened Wrappers

  const WINDOW_MS: int := 60_000
  const U32: int := 0x1_0000_0000

  datatype Window = Window(count: nat, start: int)

  datatype Call = Call(script: string, now: int)

  /** One call against the window of one script. */
  function Admit(window: Option<Window>, limit: nat, now: int): (Window, bool) {
    var held := if window.Some? then window.value else Window(0, now);
    var current := if now - held.start >= WINDOW_MS then Window(0, now) else held;
    (current.(count := (current.count + 1) % U32), current.count < limit % U32)
  }

  function Lookup(windows: map<string, Window>, script: string): Option<Window> {
    if script in windows then Some(windows[script]) else None
  }

  class Limiter {
    var windows: map<string, Window>
    const defaultLimit: nat

    constructor (defaultLimit: nat)
      ensures windows == map[] && this.defaultLimit == defaultLimit
    {
      windows := map[];
      this.defaultLimit := defaultLimit;
    }

    method Check(script: string, now: int) returns (ok: bool)
      modifies this
      ensures (Lookup(windows, script), ok) ==
        (Some(Admit(Lookup(old(windows), script), defaultLimit, now).0),
         Admit(Lookup(old(windows), script), defaultLimit, now).1)
      ensures forall other | other != script :: Lookup(windows, other) == Lookup(old(windows), other)
    {
      if script !in windows {
        windows := windows[script := Window(0, now)];
      }
      if now - windows[script].start >= WINDOW_MS {
        windows := windows[script := Window(0, now)];
      }
      var current := windows[script].count;
      windows := windows[script := windows[script].(count := (current + 1) % U32)];
      ok := current < defaultLimit % U32;
    }
  }

  // ---- Runs of one script ----

  /** The window and the decisions after a run of calls from an empty limiter. */
  ghost function Run(limit: nat, times: seq<int>): (Option<Window>, seq<bool>) {
    if times == [] then (None, [])
    else
      var (before, decisions) := Run(limit, times[..|times| - 1]);
      var (window, ok) := Admit(before, limit, times[|times| - 1]);
      (Some(window), decisions + [ok])
  }

  /** Where the window of the last call starts: at the first call that comes a minute or
      more after the start of the window before it. */
  ghost function StartOf(times: seq<int>): int
    requires times != []
  {
    var now := times[|times| - 1];
    if |times| == 1 then now
    else
      var previous := StartOf(times[..|times| - 1]);
      if now - previous >= WINDOW_MS then now else previous
  }

  /** The last call falls in the window the call before it was in. */
  ghost predicate StaysInWindow(times: seq<int>) {
    |times| > 1 && times[|times| - 1] - StartOf(times[..|times| - 1]) < WINDOW_MS
  }

  /** How many calls the window of the last call has seen. */
  ghost function CallsInWindow(times: seq<int>): nat {
    if times == [] then 0
    else 1 + if StaysInWindow(times) then CallsInWindow(times[..|times| - 1]) else 0
  }

  ghost predicate Granted(limit: nat, times: seq<int>)
    requires times != []
  {
    Admit(Run(limit, times[..|times| - 1]).0, limit, times[|times| - 1]).1
  }

  /** How many calls the window of the last call has let through. */
  ghost function GrantsInWindow(limit: nat, times: seq<int>): nat {
    if times == [] then 0
    else
      (if Granted(limit, times) then 1 else 0)
      + if StaysInWindow(times) then GrantsInWindow(limit, times[..|times| - 1]) else 0
  }

  /** How many calls were let through at `lo` or later and before `lo` plus a minute. */
  ghost function GrantsFrom(limit: nat, times: seq<int>, lo: int): nat {
    if times == [] then 0
    else
      GrantsFrom(limit, times[..|times| - 1], lo)
      + if lo <= times[|times| - 1] < lo + WINDOW_MS && Granted(limit, times) then 1 else 0
  }

  /** The stored window is the window of the last call, counted modulo 2^32. */
  lemma {:induction false} RunTracksWindow(limit: nat, times: seq<int>)
    requires times != []
    ensures Run(limit, times).0 == Some(Window(CallsInWindow(times) % U32, StartOf(times)))
    ensures Granted(limit, times) <==> (CallsInWindow(times) - 1) % U32 < limit % U32
  {
    if |times| > 1 {
      var earlier := times[..|times| - 1];
      RunTracksWindow(limit, earlier);
      WrapStep(CallsInWindow(earlier));
      assert Run(limit, times).0 == Some(Admit(Run(limit, earlier).0, limit, times[|times| - 1]).0);
    } else {
      assert Run(limit, times[..|times| - 1]).0 == None;
    }
  }

  lemma WrapStep(n: nat)
    ensures (n % U32 + 1) % U32 == (n + 1) % U32
  {
  }

  /** Windows never overlap: of two calls, the later is in the window of the earlier or in
      one that starts a minute or more after it. */
  lemma {:induction false} WindowsAreAMinuteApart(times: seq<int>, k: nat)
    requires 0 < k <= |times|
    ensures StartOf(times) == StartOf(times[..k]) || StartOf(times) >= StartOf(times[..k]) + WINDOW_MS
    decreases |times|
  {
    if k < |times| {
      var earlier := times[..|times| - 1];
      WindowsAreAMinuteApart(earlier, k);
      assert earlier[..k] == times[..k];
    } else {
      assert times[..k] == times;
    }
  }

  /** What a window lets through, in closed form: the limit once for every 2^32 calls. */
  lemma {:induction false} GrantsInWindowClosedForm(limit: nat, times: seq<int>)
    ensures var n := CallsInWindow(times);
            GrantsInWindow(limit, times) == n / U32 * (limit % U32) + Min(n % U32, limit % U32)
  {
    if times != [] {
      RunTracksWindow(limit, times);
      GrantsInWindowClosedForm(limit, times[..|times| - 1]);
      OneMoreCall(CallsInWindow(times), limit % U32);
    }
  }

  lemma OneMoreCall(n: nat, l: nat)
    requires n > 0 && l < U32
    ensures n / U32 * l + Min(n % U32, l)
            == (n - 1) / U32 * l + Min((n - 1) % U32, l) + if (n - 1) % U32 < l then 1 else 0
  {
    if n % U32 == 0 {
      assert n / U32 == (n - 1) / U32 + 1;
      ScaleSum(l, (n - 1) / U32, 1);
    } else {
      assert n / U32 == (n - 1) / U32;
    }
  }

  /** A window keeps to its limit exactly when it sees at most 2^32 calls (or the limit
      is zero): beyond that the counter has wrapped and grants start again. */
  lemma {:induction false} WindowKeepsLimitExactly(limit: nat, times: seq<int>)
    ensures GrantsInWindow(limit, times) <= limit % U32
            <==> CallsInWindow(times) <= U32 || limit % U32 == 0
  {
    GrantsInWindowClosedForm(limit, times);
    var n, l := CallsInWindow(times), limit % U32;
    if n >= U32 && l > 0 {
      var q := n / U32;
      if q == 1 {
        assert q * l == l;
        assert n % U32 == n - U32;
      } else {
        assert q >= 2;
        assert q * l >= 2 * l by { ScaleMonotone(l, 2, q); }
      }
    } else if l == 0 {
      assert n / U32 * l == 0;
    }
  }

  /** No window outgrows its counter, however many windows there are. */
  ghost predicate WithinCounter(times: seq<int>) {
    forall k | 0 < k <= |times| :: CallsInWindow(times[..k]) <= U32
  }

  lemma WithinCounterEarlier(times: seq<int>)
    requires times != [] && WithinCounter(times)
    ensures WithinCounter(times[..|times| - 1]) && CallsInWindow(times) <= U32
  {
    var earlier := times[..|times| - 1];
    forall k | 0 < k <= |earlier| ensures CallsInWindow(earlier[..k]) <= U32 {
      assert earlier[..k] == times[..k];
    }
    assert times[..|times|] == times;
  }

  /** Over any minute, aligned or not, at most `2 * limit - 1` calls get through (the limit as
      cut to 32 bits, and none if that is zero). */
  lemma {:induction false} GrantsInAnyMinute(limit: nat, times: seq<int>, lo: int)
    requires Sorted(times) && WithinCounter(times)
    ensures GrantsFrom(limit, times, lo) <= Max(2 * (limit % U32) - 1, 0)
  {
    if limit % U32 == 0 {
      NothingGranted(limit, times, lo);
    } else {
      GrantsByWindowPosition(limit, times, lo);
    }
  }

  lemma {:induction false} NothingGranted(limit: nat, times: seq<int>, lo: int)
    requires limit % U32 == 0
    ensures GrantsFrom(limit, times, lo) == 0
  {
    if times != [] {
      NothingGranted(limit, times[..|times| - 1], lo);
    }
  }

  /** Where the window of the last call lies decides how many grants a minute can hold so far. */
  ghost predicate WithinTwice(l: nat, times: seq<int>, inWindow: nat, from: nat, lo: int) {
    && from <= 2 * l - 1
    && (times == [] || times[|times| - 1] < lo ==> from == 0)
    && (times != [] ==>
          && StartOf(times) <= times[|times| - 1]
          && 1 <= inWindow <= l
          && (StartOf(times) < lo <= times[|times| - 1] ==> from <= inWindow - 1)
          && (lo <= StartOf(times) < lo + WINDOW_MS ==> from <= l - 1 + inWindow))
  }

  lemma {:induction false} GrantsByWindowPosition(limit: nat, times: seq<int>, lo: int)
    requires Sorted(times) && WithinCounter(times) && limit % U32 > 0
    ensures WithinTwice(limit % U32, times, GrantsInWindow(limit, times), GrantsFrom(limit, times, lo), lo)
  {
    if times != [] {
      WithinCounterEarlier(times);
      GrantsByWindowPosition(limit, times[..|times| - 1], lo);
      RunTracksWindow(limit, times);
      WindowKeepsLimitExactly(limit, times);
      GrantsStep(limit, times, lo);
    }
  }

  lemma GrantsStep(limit: nat, times: seq<int>, lo: int)
    requires times != [] && Sorted(times)
    requires GrantsInWindow(limit, times) <= limit % U32
    requires Granted(limit, times) <==> (CallsInWindow(times) - 1) % U32 < limit % U32
    requires var earlier := times[..|times| - 1];
      limit % U32 > 0 && WithinTwice(limit % U32, earlier, GrantsInWindow(limit, earlier),
                                     GrantsFrom(limit, earlier, lo), lo)
    ensures WithinTwice(limit % U32, times, GrantsInWindow(limit, times), GrantsFrom(limit, times, lo), lo)
  {
    var earlier := times[..|times| - 1];
    if |times| > 1 {
      assert earlier[|earlier| - 1] <= times[|times| - 1];
    }
  }

  /** Where the counter has wrapped the limit fails: after 2^32 calls at one instant, with a
      limit of one, the next is granted too. */
  lemma WrappedWindowOvergrants()
    ensures var times := seq(U32 + 1, i => 0);
            CallsInWindow(times) == U32 + 1 && GrantsInWindow(1, times) == 2
  {
    AtOneInstant(U32 + 1);
    GrantsInWindowClosedForm(1, seq(U32 + 1, i => 0));
  }

  lemma {:induction false} AtOneInstant(n: nat)
    requires n > 0
    ensures var times := seq(n, i => 0); StartOf(times) == 0 && CallsInWindow(times) == n
    decreases n
  {
    var times := seq(n, i => 0);
    if n > 1 {
      assert times[..n - 1] == seq(n - 1, i => 0);
      AtOneInstant(n - 1);
    }
  }

  /** The bound is reached: two calls a minute, four calls around a window boundary. */
  lemma AnyMinuteBoundIsReached()
    ensures Sorted([0, 59_999, 60_000, 60_000])
    ensures GrantsFrom(2, [0, 59_999, 60_000, 60_000], 59_999) == 2 * 2 - 1
  {
    var a, b, c, d := [0], [0, 59_999], [0, 59_999, 60_000], [0, 59_999, 60_000, 60_000];
    assert d[..3] == c && c[..2] == b && b[..1] == a && a[..0] == [];
    assert Run(2, a).0 == Some(Window(1, 0));
    assert Run(2, b).0 == Some(Window(2, 0));
    assert Run(2, c).0 == Some(Window(1, 60_000));
    assert GrantsFrom(2, a, 59_999) == 0;
    assert GrantsFrom(2, b, 59_999) == 1;
    assert GrantsFrom(2, c, 59_999) == 2;
  }

  // ---- Runs of many scripts ----

  /** The windows and the decisions after calls by any scripts in any order. */
  ghost function RunAll(limit: nat, calls: seq<Call>): (map<string, Window>, seq<bool>) {
    if calls == [] then (map[], [])
    else
      var (windows, decisions) := RunAll(limit, calls[..|calls| - 1]);
      var call := calls[|calls| - 1];
      var (window, ok) := Admit(Lookup(windows, call.script), limit, call.now);
      (windows[call.script := window], decisions + [ok])
  }

  ghost function TimesOf(calls: seq<Call>, script: string): seq<int> {
    if calls == [] then []
    else
      var last := calls[|calls| - 1];
      TimesOf(calls[..|calls| - 1], script) + if last.script == script then [last.now] else []
  }

  ghost function DecisionsOf(calls: seq<Call>, decisions: seq<bool>, script: string): seq<bool>
    requires |calls| == |decisions|
  {
    if calls == [] then []
    else
      DecisionsOf(calls[..|calls| - 1], decisions[..|calls| - 1], script)
      + if calls[|calls| - 1].script == script then [decisions[|calls| - 1]] else []
  }

  lemma {:induction false} RunAllDecides(limit: nat, calls: seq<Call>)
    ensures |RunAll(limit, calls).1| == |calls|
  {
    if calls != [] {
      RunAllDecides(limit, calls[..|calls| - 1]);
    }
  }

  /** What one script is told depends on its own calls alone. */
  lemma {:induction false} ScriptsAreIndependent(limit: nat, calls: seq<Call>, script: string)
    ensures |RunAll(limit, calls).1| == |calls|
    ensures Lookup(RunAll(limit, calls).0, script) == Run(limit, TimesOf(calls, script)).0
    ensures DecisionsOf(calls, RunAll(limit, calls).1, script) == Run(limit, TimesOf(calls, script)).1
  {
    RunAllDecides(limit, calls);
    if calls != [] {
      var earlier := calls[..|calls| - 1];
      ScriptsAreIndependent(limit, earlier, script);
      var decisions := RunAll(limit, calls).1;
      assert decisions[..|calls| - 1] == RunAll(limit, earlier).1;
      if calls[|calls| - 1].script == script {
        var times := TimesOf(calls, script);
        assert times[..|times| - 1] == TimesOf(earlier, script);
      } else {
        assert Lookup(RunAll(limit, calls).0, script) == Lookup(RunAll(limit, earlier).0, script);
        assert TimesOf(calls, script) == TimesOf(earlier, script);
      }
    }
  }
}
