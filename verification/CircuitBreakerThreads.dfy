/** The circuit breaker as its atomic operations, interleaved by any number of threads
    (`src/resilience/circuit_breaker.rs`). */
module CircuitBreakerThreads {
  import opened Wrappers
  import CB = CircuitBreaker

  /** What follows a `release_permit`: nothing, or the rest of a report. */
  datatype Then = ThenDone | ThenSuccess | ThenFailure

  /** Where a thread is, named after the operation it performs next, with the values it has
      already loaded.  A thread that was let through stays `Admitted`, with or without a permit,
      until it makes its next call, which is its report. */
  datatype Thread =
    | Idle
    | Rejected
    | Admitted(permit: bool)
    // is_open
    | LoadState
    | LoadLastFailure
    | SampleClock(last: nat)
    | SwapToHalfOpen
    | ClearSuccesses
    | ClearPermits
    | LoadPermits
    | TakePermit(loaded: nat)
    // release_permit
    | ReleaseLoadState(after: Then)
    | ReleaseLoadPermits(after: Then)
    | GiveBackPermit(after: Then, left: nat)
    // record_success
    | SuccessLoadState
    | SuccessClearFailures
    | CountSuccess
    | SwapToClosed
    | ClosedClearFailures
    | ClosedClearPermits
    // record_failure
    | FailureLoadState
    | CountFailure
    | StampFailure
    | SwapToOpen
    // reset
    | ResetState
    | ResetFailures
    | ResetSuccesses
    | ResetTime
    | ResetPermits

  /** Shared memory, with an account of the permits: `taken` and `givenBack` by successful
      swaps, and `wiped` by the plain stores of zero. */
  datatype Memory = Memory(
    phase: CB.Phase, failures: nat, successes: nat, lastFailure: nat, permits: nat,
    taken: nat, givenBack: nat, wiped: nat)

  datatype State = State(m: Memory, clock: nat, threads: seq<Thread>)

  datatype Call = IsOpen | Release | Success | Failure | Reset

  datatype Action =
    | SetClock(now: nat)
    | Begin(thread: nat, call: Call)
    | Advance(thread: nat)

  function Start(threads: nat): State {
    State(Memory(CB.Closed, 0, 0, 0, 0, 0, 0, 0), 0, seq(threads, i => Idle))
  }

  function Enter(call: Call): Thread {
    match call
    case IsOpen => LoadState
    case Release => ReleaseLoadState(ThenDone)
    case Success => SuccessLoadState
    case Failure => FailureLoadState
    case Reset => ResetState
  }

  function Resume(after: Then): Thread {
    match after
    case ThenDone => Idle
    case ThenSuccess => CountSuccess
    case ThenFailure => StampFailure
  }

  /** One atomic operation: the memory it leaves and where the thread is then. */
  function Operate(c: CB.Config, m: Memory, clock: nat, thread: Thread): (Memory, Thread) {
    match thread
    case Idle => (m, thread)
    case Rejected => (m, thread)
    case Admitted(_) => (m, thread)
    // is_open
    case LoadState =>
      (m, match m.phase
                 case Closed => Admitted(false)
                 case Open => LoadLastFailure
                 case HalfOpen => LoadPermits)
    case LoadLastFailure => (m, SampleClock(m.lastFailure))
    case SampleClock(last) =>
      (m, if last > 0 && Max(clock - last, 0) >= c.recoveryMs
                 then SwapToHalfOpen else Rejected)
    case SwapToHalfOpen =>
      if m.phase == CB.Open then (m.(phase := CB.HalfOpen), ClearSuccesses)
      else (m, LoadState)
    case ClearSuccesses => (m.(successes := 0), ClearPermits)
    case ClearPermits => (WipePermits(m), LoadState)
    case LoadPermits => (m, if m.permits >= c.maxPermits then Rejected else TakePermit(m.permits))
    case TakePermit(loaded) =>
      if m.permits == loaded
      then (m.(permits := loaded + 1, taken := m.taken + 1), Admitted(true))
      else (m, LoadState)
    // release_permit
    case ReleaseLoadState(after) =>
      (m, if m.phase == CB.HalfOpen then ReleaseLoadPermits(after) else Resume(after))
    case ReleaseLoadPermits(after) =>
      (m, if m.permits == 0 then Resume(after) else GiveBackPermit(after, m.permits - 1))
    case GiveBackPermit(after, left) =>
      if m.permits == left + 1
      then (m.(permits := left, givenBack := m.givenBack + 1), Resume(after))
      else (m, ReleaseLoadPermits(after))
    // record_success
    case SuccessLoadState =>
      (m, match m.phase
                 case Closed => SuccessClearFailures
                 case Open => Idle
                 case HalfOpen => ReleaseLoadState(ThenSuccess))
    case SuccessClearFailures => (m.(failures := 0), Idle)
    case CountSuccess =>
      (m.(successes := m.successes + 1),
           if m.successes + 1 >= CB.SUCCESS_THRESHOLD then SwapToClosed else Idle)
    case SwapToClosed =>
      if m.phase == CB.HalfOpen then (m.(phase := CB.Closed), ClosedClearFailures)
      else (m, Idle)
    case ClosedClearFailures => (m.(failures := 0), ClosedClearPermits)
    case ClosedClearPermits => (WipePermits(m), Idle)
    // record_failure
    case FailureLoadState =>
      (m, match m.phase
                 case Closed => CountFailure
                 case Open => Idle
                 case HalfOpen => ReleaseLoadState(ThenFailure))
    case CountFailure =>
      (m.(failures := m.failures + 1),
           if m.failures + 1 >= c.threshold then StampFailure else Idle)
    case StampFailure => (m.(lastFailure := clock), SwapToOpen)
    case SwapToOpen => (m.(phase := CB.Open), Idle)
    // reset
    case ResetState => (m.(phase := CB.Closed), ResetFailures)
    case ResetFailures => (m.(failures := 0), ResetSuccesses)
    case ResetSuccesses => (m.(successes := 0), ResetTime)
    case ResetTime => (m.(lastFailure := 0), ResetPermits)
    case ResetPermits => (WipePermits(m), Idle)
  }

  function WipePermits(m: Memory): Memory {
    m.(permits := 0, wiped := m.wiped + m.permits)
  }

  predicate Free(t: Thread) {
    t.Idle? || t.Rejected? || t.Admitted?
  }

  function Next(c: CB.Config, s: State, a: Action): State {
    match a
    case SetClock(now) => s.(clock := now)
    case Begin(t, call) =>
      if t < |s.threads| && Free(s.threads[t])
      then s.(threads := s.threads[t := Enter(call)]) else s
    case Advance(t) =>
      if t < |s.threads| then
        var (m, thread) := Operate(c, s.m, s.clock, s.threads[t]);
        State(m, s.clock, s.threads[t := thread])
      else s
  }

  ghost function Run(c: CB.Config, s: State, actions: seq<Action>): State
    decreases |actions|
  {
    if actions == [] then s else Run(c, Next(c, s, actions[0]), actions[1..])
  }

  // ---- The invariant ----

  ghost predicate Inv(c: CB.Config, s: State) {
    && s.m.permits <= c.maxPermits
    && s.m.taken == s.m.permits + s.m.givenBack + s.m.wiped
    && forall i | 0 <= i < |s.threads| && s.threads[i].TakePermit? :: s.threads[i].loaded < c.maxPermits
  }

  lemma NextKeepsInv(c: CB.Config, s: State, a: Action)
    requires Inv(c, s)
    ensures Inv(c, Next(c, s, a))
  {
  }

  lemma {:induction false} EveryInterleaving(c: CB.Config, s: State, actions: seq<Action>)
    requires Inv(c, s)
    ensures Inv(c, Run(c, s, actions))
    decreases |actions|
  {
    if actions != [] {
      NextKeepsInv(c, s, actions[0]);
      EveryInterleaving(c, Next(c, s, actions[0]), actions[1..]);
    }
  }

  /** In every interleaving, resets included, the permit counter stays within its limit, and
      the permits taken are those out, those given back and those wiped. */
  lemma PermitsAreSafe(c: CB.Config, threads: nat, actions: seq<Action>)
    requires c.Valid()
    ensures var s := Run(c, Start(threads), actions);
            && 0 <= s.m.permits <= c.maxPermits
            && s.m.taken == s.m.permits + s.m.givenBack + s.m.wiped
  {
    EveryInterleaving(c, Start(threads), actions);
  }

  // ---- Phases ----

  ghost predicate Resetting(t: Thread) {
    t.ResetState? || t.ResetFailures? || t.ResetSuccesses? || t.ResetTime? || t.ResetPermits?
  }

  /** Which operation can move the breaker between two phases. */
  lemma PhaseChange(c: CB.Config, s: State, a: Action)
    ensures var s' := Next(c, s, a);
      s.m.phase != s'.m.phase ==>
        a.Advance? && a.thread < |s.threads| &&
        match (s.m.phase, s'.m.phase)
        case (Closed, HalfOpen) => false
        case (Open, Closed) => s.threads[a.thread].ResetState?
        case (Open, HalfOpen) => s.threads[a.thread].SwapToHalfOpen?
        case (HalfOpen, Closed) => s.threads[a.thread].SwapToClosed? || s.threads[a.thread].ResetState?
        case (_, _) => s.threads[a.thread].SwapToOpen?
  {
  }

  ghost predicate NoReset(s: State, actions: seq<Action>) {
    && (forall i | 0 <= i < |s.threads| :: !Resetting(s.threads[i]))
    && (forall a | a in actions :: a.Begin? ==> a.call != Reset)
  }

  /** Without resets an open breaker closes only through the half-open phase. */
  lemma {:induction false} ClosesThroughHalfOpen(c: CB.Config, s: State, actions: seq<Action>)
    requires NoReset(s, actions) && s.m.phase == CB.Open && Run(c, s, actions).m.phase == CB.Closed
    ensures exists k | 0 <= k <= |actions| :: Run(c, s, actions[..k]).m.phase == CB.HalfOpen
    decreases |actions|
  {
    if actions != [] {
      var a, rest := actions[0], actions[1..];
      var s' := Next(c, s, a);
      PhaseChange(c, s, a);
      assert a in actions && forall x | x in rest :: x in actions;
      assert actions[..1][1..] == [];
      assert Run(c, s, actions[..1]) == s';
      if s'.m.phase == CB.Open {
        ClosesThroughHalfOpen(c, s', rest);
        var k :| 0 <= k <= |rest| && Run(c, s', rest[..k]).m.phase == CB.HalfOpen;
        assert actions[..k + 1][1..] == rest[..k];
        assert Run(c, s, actions[..k + 1]).m.phase == CB.HalfOpen;
      }
    }
  }

  // ---- Single calls ----

  function BreakerOf(m: Memory): CB.Breaker {
    CB.Breaker(m.phase, m.failures, m.successes, m.lastFailure, m.permits)
  }

  ghost function Effect(c: CB.Config, m: Memory, clock: nat, call: Call): CB.Breaker
    requires c.Valid()
  {
    match call
    case IsOpen => CB.Ask(c, BreakerOf(m), clock).0
    case Release => CB.ReleasePermit(BreakerOf(m))
    case Success => CB.RecordSuccess(BreakerOf(m))
    case Failure => CB.RecordFailure(c, BreakerOf(m), clock)
    case Reset => CB.FRESH
  }

  ghost function Answer(c: CB.Config, m: Memory, clock: nat, call: Call): Thread
    requires c.Valid()
  {
    if call != IsOpen then Idle
    else if CB.Ask(c, BreakerOf(m), clock).1 then Rejected
    else Admitted(m.phase != CB.Closed)
  }

  /** A thread runs `n` operations with no other thread in between. */
  function OperateAlone(c: CB.Config, m: Memory, clock: nat, thread: Thread, n: nat): (Memory, Thread)
    decreases n
  {
    if n == 0 then (m, thread)
    else
      var (m', thread') := Operate(c, m, clock, thread);
      OperateAlone(c, m', clock, thread', n - 1)
  }

  lemma AloneOnce(c: CB.Config, m: Memory, clock: nat, thread: Thread, n: nat) returns (m': Memory, thread': Thread)
    requires n > 0
    ensures (m', thread') == Operate(c, m, clock, thread)
    ensures OperateAlone(c, m, clock, thread, n) == OperateAlone(c, m', clock, thread', n - 1)
  {
    m' := Operate(c, m, clock, thread).0;
    thread' := Operate(c, m, clock, thread).1;
  }

  lemma {:induction false} AloneIdle(c: CB.Config, m: Memory, clock: nat, thread: Thread, n: nat)
    requires Free(thread)
    ensures OperateAlone(c, m, clock, thread, n) == (m, thread)
  {
    if n > 0 {
      AloneIdle(c, m, clock, thread, n - 1);
    }
  }

  /** A call that runs with no other thread in between does what the one-step function of
      CircuitBreaker does, and ends with its answer, within nine operations. */
  lemma SoloCallIsAtomic(c: CB.Config, m: Memory, clock: nat, call: Call, n: nat)
    requires c.Valid() && n >= 9
    ensures var (m', thread) := OperateAlone(c, m, clock, Enter(call), n);
            BreakerOf(m') == Effect(c, m, clock, call) && thread == Answer(c, m, clock, call)
  {
    match call
    case IsOpen => SoloIsOpen(c, m, clock, n);
    case Release =>
      var m', left := SoloRelease(c, m, clock, ThenDone, n);
      AloneIdle(c, m', clock, Idle, left);
    case Success => SoloSuccess(c, m, clock, n);
    case Failure => SoloFailure(c, m, clock, n);
    case Reset => SoloReset(c, m, clock, n);
  }

  /** How many operations a thread is from the end of its call if no other thread takes a step. */
  ghost function StepsLeft(m: Memory, thread: Thread): nat {
    var load := match m.phase case Closed => 1 case HalfOpen => 3 case Open => 9;
    match thread
    case Idle => 0
    case Rejected => 0
    case Admitted(_) => 0
    case LoadState => load
    case LoadLastFailure => 8
    case SampleClock(_) => 7
    case SwapToHalfOpen => if m.phase == CB.Open then 6 else load + 1
    case ClearSuccesses => load + 2
    case ClearPermits => load + 1
    case LoadPermits => 2
    case TakePermit(loaded) => if m.permits == loaded then 1 else load + 1
    case ReleaseLoadState(after) => StepsAfter(after) + 4
    case ReleaseLoadPermits(after) => StepsAfter(after) + 2
    case GiveBackPermit(after, left) => StepsAfter(after) + if m.permits == left + 1 then 1 else 3
    case SuccessLoadState => 9
    case SuccessClearFailures => 1
    case CountSuccess => 4
    case SwapToClosed => 3
    case ClosedClearFailures => 2
    case ClosedClearPermits => 1
    case FailureLoadState => 7
    case CountFailure => 3
    case StampFailure => 2
    case SwapToOpen => 1
    case ResetState => 5
    case ResetFailures => 4
    case ResetSuccesses => 3
    case ResetTime => 2
    case ResetPermits => 1
  }

  ghost function StepsAfter(after: Then): nat {
    match after
    case ThenDone => 0
    case ThenSuccess => 4
    case ThenFailure => 2
  }

  lemma EachOperationCounts(c: CB.Config, m: Memory, clock: nat, thread: Thread)
    requires !Free(thread)
    ensures var (m', thread') := Operate(c, m, clock, thread); StepsLeft(m', thread') < StepsLeft(m, thread)
  {
  }

  /** No call is ever stuck: wherever a thread is, whatever the others did to the memory since it last
      looked, eleven operations of its own with no other thread in between bring its call to its end. */
  lemma {:induction false} EveryCallEnds(c: CB.Config, m: Memory, clock: nat, thread: Thread, n: nat)
    requires n >= StepsLeft(m, thread)
    ensures Free(OperateAlone(c, m, clock, thread, n).1) && StepsLeft(m, thread) <= 11
    decreases n
  {
    if n > 0 {
      var (m', thread') := Operate(c, m, clock, thread);
      if Free(thread) {
        AloneIdle(c, m, clock, thread, n);
      } else {
        EachOperationCounts(c, m, clock, thread);
        EveryCallEnds(c, m', clock, thread', n - 1);
      }
    }
  }

  /** All threads begin idle, on a fresh breaker with no permit taken or given back. */
  lemma StartsFresh(threads: nat)
    ensures var s := Start(threads);
      && BreakerOf(s.m) == CB.FRESH && s.m.taken == s.m.givenBack == s.m.wiped == 0
      && |s.threads| == threads && forall i | 0 <= i < threads :: s.threads[i] == Idle
  {
  }

  lemma SoloTake(c: CB.Config, m: Memory, clock: nat, n: nat)
    requires c.Valid() && m.phase == CB.HalfOpen && n >= 3
    ensures var (m', thread) := OperateAlone(c, m, clock, LoadState, n);
      if m.permits < c.maxPermits
      then m' == m.(permits := m.permits + 1, taken := m.taken + 1) && thread == Admitted(true)
      else m' == m && thread == Rejected
  {
    var m1, p1 := AloneOnce(c, m, clock, LoadState, n);
    var m2, p2 := AloneOnce(c, m1, clock, p1, n - 1);
    var m3, p3 := AloneOnce(c, m2, clock, p2, n - 2);
    AloneIdle(c, m3, clock, p3, n - 3);
  }

  lemma SoloIsOpen(c: CB.Config, m: Memory, clock: nat, n: nat)
    requires c.Valid() && n >= 9
    ensures var (m', thread) := OperateAlone(c, m, clock, LoadState, n);
            BreakerOf(m') == CB.Ask(c, BreakerOf(m), clock).0 && thread == Answer(c, m, clock, IsOpen)
  {
    if m.phase == CB.HalfOpen {
      SoloTake(c, m, clock, n);
    } else if m.phase == CB.Closed || !CB.RecoveryDue(c, BreakerOf(m), clock) {
      var m1, p1 := AloneOnce(c, m, clock, LoadState, n);
      var m2, p2 := AloneOnce(c, m1, clock, p1, n - 1);
      var m3, p3 := AloneOnce(c, m2, clock, p2, n - 2);
      AloneIdle(c, m3, clock, p3, n - 3);
    } else {
      SoloSwap(c, m, clock, n);
      var m1 := m.(phase := CB.HalfOpen);
      var m2, p2 := AloneOnce(c, m1, clock, ClearSuccesses, n - 4);
      var m3, p3 := AloneOnce(c, m2, clock, p2, n - 5);
      SoloTake(c, m3, clock, n - 6);
    }
  }

  /** A due breaker: the first four operations of a request swap it to half-open. */
  lemma SoloSwap(c: CB.Config, m: Memory, clock: nat, n: nat)
    requires m.phase == CB.Open && CB.RecoveryDue(c, BreakerOf(m), clock) && n >= 4
    ensures OperateAlone(c, m, clock, LoadState, n)
            == OperateAlone(c, m.(phase := CB.HalfOpen), clock, ClearSuccesses, n - 4)
  {
    var m1, p1 := AloneOnce(c, m, clock, LoadState, n);
    var m2, p2 := AloneOnce(c, m1, clock, p1, n - 1);
    var m3, p3 := AloneOnce(c, m2, clock, p2, n - 2);
    var m4, p4 := AloneOnce(c, m3, clock, p3, n - 3);
  }

  /** `release_permit` alone, for whichever caller it is part of. */
  lemma SoloRelease(c: CB.Config, m: Memory, clock: nat, after: Then, n: nat) returns (m': Memory, left: nat)
    requires n >= 3
    ensures left + 3 >= n && BreakerOf(m') == CB.ReleasePermit(BreakerOf(m))
    ensures OperateAlone(c, m, clock, ReleaseLoadState(after), n)
            == OperateAlone(c, m', clock, Resume(after), left)
  {
    var thread;
    m', thread := AloneOnce(c, m, clock, ReleaseLoadState(after), n);
    left := n - 1;
    if m.phase == CB.HalfOpen {
      m', thread := AloneOnce(c, m', clock, thread, left);
      left := n - 2;
      if m.permits > 0 {
        m', thread := AloneOnce(c, m', clock, thread, left);
        left := n - 3;
      }
    }
  }

  lemma SoloSuccess(c: CB.Config, m: Memory, clock: nat, n: nat)
    requires c.Valid() && n >= 8
    ensures var (m', thread) := OperateAlone(c, m, clock, SuccessLoadState, n);
            BreakerOf(m') == CB.RecordSuccess(BreakerOf(m)) && thread == Idle
  {
    var m1, p1 := AloneOnce(c, m, clock, SuccessLoadState, n);
    if m.phase == CB.HalfOpen {
      var m2, left := SoloRelease(c, m1, clock, ThenSuccess, n - 1);
      SoloCountSuccess(c, m2, clock, left);
    } else {
      var m2, p2 := AloneOnce(c, m1, clock, p1, n - 1);
      AloneIdle(c, m2, clock, p2, n - 2);
    }
  }

  lemma SoloCountSuccess(c: CB.Config, m: Memory, clock: nat, n: nat)
    requires m.phase == CB.HalfOpen && n >= 4
    ensures var (m', thread) := OperateAlone(c, m, clock, CountSuccess, n);
      && thread == Idle
      && BreakerOf(m') ==
         if m.successes + 1 >= CB.SUCCESS_THRESHOLD
         then CB.Breaker(CB.Closed, 0, m.successes + 1, m.lastFailure, 0)
         else BreakerOf(m).(successes := m.successes + 1)
  {
    var m1, p1 := AloneOnce(c, m, clock, CountSuccess, n);
    if p1.Idle? {
      AloneIdle(c, m1, clock, p1, n - 1);
    } else {
      var m2, p2 := AloneOnce(c, m1, clock, p1, n - 1);
      var m3, p3 := AloneOnce(c, m2, clock, p2, n - 2);
      var m4, p4 := AloneOnce(c, m3, clock, p3, n - 3);
      AloneIdle(c, m4, clock, p4, n - 4);
    }
  }

  lemma SoloFailure(c: CB.Config, m: Memory, clock: nat, n: nat)
    requires c.Valid() && n >= 6
    ensures var (m', thread) := OperateAlone(c, m, clock, FailureLoadState, n);
            BreakerOf(m') == CB.RecordFailure(c, BreakerOf(m), clock) && thread == Idle
  {
    var m1, p1 := AloneOnce(c, m, clock, FailureLoadState, n);
    if m.phase == CB.HalfOpen {
      var m2, left := SoloRelease(c, m1, clock, ThenFailure, n - 1);
      SoloOpenCircuit(c, m2, clock, left);
    } else if m.phase == CB.Open {
      AloneIdle(c, m1, clock, p1, n - 1);
    } else {
      SoloCountFailure(c, m, clock, n - 1);
    }
  }

  lemma SoloCountFailure(c: CB.Config, m: Memory, clock: nat, n: nat)
    requires m.phase == CB.Closed && n >= 3
    ensures var (m', thread) := OperateAlone(c, m, clock, CountFailure, n);
            BreakerOf(m') == CB.RecordFailure(c, BreakerOf(m), clock) && thread == Idle
  {
    var m1, p1 := AloneOnce(c, m, clock, CountFailure, n);
    if p1.Idle? {
      AloneIdle(c, m1, clock, p1, n - 1);
    } else {
      SoloOpenCircuit(c, m1, clock, n - 1);
    }
  }

  lemma SoloOpenCircuit(c: CB.Config, m: Memory, clock: nat, n: nat)
    requires n >= 2
    ensures OperateAlone(c, m, clock, StampFailure, n)
            == (m.(phase := CB.Open, lastFailure := clock), Idle)
  {
    var m1, p1 := AloneOnce(c, m, clock, StampFailure, n);
    var m2, p2 := AloneOnce(c, m1, clock, p1, n - 1);
    AloneIdle(c, m2, clock, p2, n - 2);
  }

  lemma SoloReset(c: CB.Config, m: Memory, clock: nat, n: nat)
    requires n >= 5
    ensures var (m', thread) := OperateAlone(c, m, clock, ResetState, n);
            BreakerOf(m') == CB.FRESH && thread == Idle
  {
    var m1, p1 := AloneOnce(c, m, clock, ResetState, n);
    var m2, p2 := AloneOnce(c, m1, clock, p1, n - 1);
    SoloResetRest(c, m2, clock, n - 2);
  }

  lemma SoloResetRest(c: CB.Config, m: Memory, clock: nat, n: nat)
    requires n >= 3
    ensures var (m', thread) := OperateAlone(c, m, clock, ResetSuccesses, n);
            BreakerOf(m') == CB.Breaker(m.phase, m.failures, 0, 0, 0) && thread == Idle
  {
    var m1, p1 := AloneOnce(c, m, clock, ResetSuccesses, n);
    var m2, p2 := AloneOnce(c, m1, clock, p1, n - 1);
    var m3, p3 := AloneOnce(c, m2, clock, p2, n - 2);
    AloneIdle(c, m3, clock, p3, n - 3);
  }

  // ---- Runs put together ----

  /** In a whole run, a thread that is alone advances like that. */
  lemma {:induction false} RunAlone(c: CB.Config, s: State, t: nat, n: nat)
    requires t < |s.threads|
    ensures var (m, thread) := OperateAlone(c, s.m, s.clock, s.threads[t], n);
            Run(c, s, seq(n, i => Advance(t))) == State(m, s.clock, s.threads[t := thread])
    decreases n
  {
    var steps := seq(n, i => Advance(t));
    if n > 0 {
      assert steps[0] == Advance(t) && steps[1..] == seq(n - 1, i => Advance(t));
      var s' := Next(c, s, Advance(t));
      RunAlone(c, s', t, n - 1);
      var end := OperateAlone(c, s.m, s.clock, s.threads[t], n).1;
      assert s'.threads[t := end] == s.threads[t := end];
    } else {
      assert s.threads[t := s.threads[t]] == s.threads;
    }
  }

  /** A thread asks only when it has no admission it has not reported on, and reports only on an
      admission; no one resets. */
  ghost predicate InTurn(s: State, a: Action) {
    a.Begin? && a.thread < |s.threads| ==>
      match a.call
      case IsOpen => !s.threads[a.thread].Admitted?
      case Reset => false
      case _ => s.threads[a.thread].Admitted?
  }

  ghost predicate AllInTurn(c: CB.Config, s: State, actions: seq<Action>)
    decreases |actions|
  {
    actions == [] || (InTurn(s, actions[0]) && AllInTurn(c, Next(c, s, actions[0]), actions[1..]))
  }

  lemma {:induction false} RunBoth(c: CB.Config, s: State, first: seq<Action>, second: seq<Action>)
    ensures Run(c, s, first + second) == Run(c, Run(c, s, first), second)
    ensures AllInTurn(c, s, first) && AllInTurn(c, Run(c, s, first), second) ==> AllInTurn(c, s, first + second)
    decreases |first|
  {
    if first == [] {
      assert first + second == second;
    } else {
      assert (first + second)[0] == first[0] && (first + second)[1..] == first[1..] + second;
      RunBoth(c, Next(c, s, first[0]), first[1..], second);
    }
  }

  lemma {:induction false} AdvancesAreInTurn(c: CB.Config, s: State, t: nat, n: nat)
    ensures AllInTurn(c, s, seq(n, i => Advance(t)))
    decreases n
  {
    var steps := seq(n, i => Advance(t));
    if n > 0 {
      assert steps[0] == Advance(t) && steps[1..] == seq(n - 1, i => Advance(t));
      AdvancesAreInTurn(c, Next(c, s, Advance(t)), t, n - 1);
    }
  }

  lemma RunOne(c: CB.Config, s: State, a: Action)
    ensures Run(c, s, [a]) == Next(c, s, a)
    ensures InTurn(s, a) ==> AllInTurn(c, s, [a])
  {
    assert [a][1..] == [];
  }

  /** A thread makes a call and is left alone for `n` operations. */
  lemma Alone(c: CB.Config, s: State, t: nat, call: Call, n: nat) returns (run: seq<Action>)
    requires t < |s.threads| && Free(s.threads[t])
    ensures var (m, thread) := OperateAlone(c, s.m, s.clock, Enter(call), n);
      Run(c, s, run) == State(m, s.clock, s.threads[t := thread])
    ensures InTurn(s, Begin(t, call)) ==> AllInTurn(c, s, run)
  {
    var s' := Next(c, s, Begin(t, call));
    var steps := seq(n, i => Advance(t));
    run := [Begin(t, call)] + steps;
    RunOne(c, s, Begin(t, call));
    RunAlone(c, s', t, n);
    AdvancesAreInTurn(c, s', t, n);
    RunBoth(c, s, [Begin(t, call)], steps);
    var thread := OperateAlone(c, s.m, s.clock, Enter(call), n).1;
    assert s'.threads[t := thread] == s.threads[t := thread];
  }

  /** In a run of many threads, a call that is left alone does what the one-step function does,
      and changes no other thread. */
  lemma UndisturbedCallIsAtomic(c: CB.Config, s: State, t: nat, call: Call) returns (run: seq<Action>)
    requires c.Valid() && t < |s.threads| && Free(s.threads[t])
    ensures var end := Run(c, s, run);
      && BreakerOf(end.m) == Effect(c, s.m, s.clock, call)
      && end.clock == s.clock
      && end.threads == s.threads[t := Answer(c, s.m, s.clock, call)]
    ensures InTurn(s, Begin(t, call)) ==> AllInTurn(c, s, run)
  {
    run := Alone(c, s, t, call, 9);
    SoloCallIsAtomic(c, s.m, s.clock, call, 9);
  }

  // ---- How many requests are out in the half-open phase ----

  /** How many threads hold a permit for a request they have not reported on. */
  ghost function Out(threads: seq<Thread>): nat {
    if threads == [] then 0
    else Out(threads[..|threads| - 1]) + if threads[|threads| - 1] == Admitted(true) then 1 else 0
  }

  lemma {:induction false} OutAtMostAll(threads: seq<Thread>)
    ensures Out(threads) <= |threads|
  {
    if threads != [] {
      OutAtMostAll(threads[..|threads| - 1]);
    }
  }

  lemma {:induction false} OutAtLeast(threads: seq<Thread>, n: nat)
    requires n <= |threads| && forall i | 0 <= i < n :: threads[i] == Admitted(true)
    ensures Out(threads) >= n
  {
    if n > 0 {
      var last := |threads| - 1;
      OutAtLeast(threads[..last], if n == |threads| then n - 1 else n);
    }
  }

  lemma {:induction false} ThreadsStay(c: CB.Config, s: State, actions: seq<Action>)
    ensures |Run(c, s, actions).threads| == |s.threads|
    decreases |actions|
  {
    if actions != [] {
      ThreadsStay(c, Next(c, s, actions[0]), actions[1..]);
    }
  }

  /** Threads that ask again only after they have reported never have more requests out than the
      half-open limit, in any interleaving, exactly when there are no more threads than that. */
  lemma HalfOpenLimitHoldsExactly(c: CB.Config, threads: nat)
    requires c.Valid()
    ensures (forall actions | AllInTurn(c, Start(threads), actions) ::
               Out(Run(c, Start(threads), actions).threads) <= c.maxPermits)
            <==> threads <= c.maxPermits
  {
    var s := Start(threads);
    if threads <= c.maxPermits {
      forall actions | AllInTurn(c, s, actions) ensures Out(Run(c, s, actions).threads) <= c.maxPermits {
        ThreadsStay(c, s, actions);
        OutAtMostAll(Run(c, s, actions).threads);
      }
    } else {
      var run := OvertakenTransitionOvergrants(c, threads);
    }
  }

  // ---- One thread too many ----

  /** Thread 0 asks and reports failures until the breaker opens. */
  lemma {:induction false} FailsUntilOpen(c: CB.Config, s: State) returns (run: seq<Action>)
    requires c.Valid() && |s.threads| > 0 && s.threads[0] == Idle && s.m.phase == CB.Closed && s.m.permits == 0
    ensures AllInTurn(c, s, run)
    ensures var end := Run(c, s, run);
      && end.m.phase == CB.Open && end.m.lastFailure == s.clock == end.clock && end.m.permits == 0
      && end.threads == s.threads
    decreases c.threshold - s.m.failures
  {
    var asks := UndisturbedCallIsAtomic(c, s, 0, IsOpen);
    var asked := Run(c, s, asks);
    var fails := UndisturbedCallIsAtomic(c, asked, 0, Failure);
    var failed := Run(c, asked, fails);
    RunBoth(c, s, asks, fails);
    run := asks + fails;
    assert failed.threads == s.threads;
    if failed.m.phase == CB.Closed {
      var more := FailsUntilOpen(c, failed);
      RunBoth(c, s, run, more);
      run := run + more;
    }
  }

  /** The threads after `t`, up to the limit, take the permits that are left. */
  lemma {:induction false} TakePermits(c: CB.Config, s: State) returns (run: seq<Action>)
    requires c.Valid() && s.m.phase == CB.HalfOpen && s.m.permits <= c.maxPermits < |s.threads|
    requires forall i | s.m.permits < i < |s.threads| :: s.threads[i] == Idle
    requires forall i | 0 < i <= s.m.permits :: s.threads[i] == Admitted(true)
    ensures AllInTurn(c, s, run)
    ensures var end := Run(c, s, run);
      && end.m.phase == CB.HalfOpen && end.clock == s.clock
      && |end.threads| == |s.threads| && end.threads[0] == s.threads[0]
      && forall i | 0 < i <= c.maxPermits :: end.threads[i] == Admitted(true)
    decreases c.maxPermits - s.m.permits
  {
    run := [];
    if s.m.permits < c.maxPermits {
      var ask := UndisturbedCallIsAtomic(c, s, s.m.permits + 1, IsOpen);
      var rest := TakePermits(c, Run(c, s, ask));
      RunBoth(c, s, ask, rest);
      run := ask + rest;
    }
  }

  /** From the start to where thread 0 has swapped a due breaker to half-open and is stopped. */
  lemma OpenedAndSwapped(c: CB.Config, threads: nat) returns (run: seq<Action>)
    requires c.Valid() && threads > 0
    ensures AllInTurn(c, Start(threads), run)
    ensures var end := Run(c, Start(threads), run);
      && end.m.phase == CB.HalfOpen && end.m.permits == 0
      && end.threads == Start(threads).threads[0 := ClearSuccesses]
  {
    var s0 := Start(threads);
    var s1 := Next(c, s0, SetClock(1));
    RunOne(c, s0, SetClock(1));
    var fails := FailsUntilOpen(c, s1);
    RunBoth(c, s0, [SetClock(1)], fails);
    run := [SetClock(1)] + fails;
    var s2 := Run(c, s1, fails);
    var due := SetClock(1 + c.recoveryMs);
    var s3 := Next(c, s2, due);
    RunOne(c, s2, due);
    RunBoth(c, s0, run, [due]);
    run := run + [due];
    var swap := Alone(c, s3, 0, IsOpen, 4);
    SoloSwap(c, s3.m, s3.clock, 4);
    RunBoth(c, s0, run, swap);
    run := run + swap;
  }

  /** A thread that swaps to half-open and is overtaken before it stores zero wipes the permits
      taken meanwhile: the limit and one more request are let through. */
  lemma OvertakenTransitionOvergrants(c: CB.Config, threads: nat) returns (run: seq<Action>)
    requires c.Valid() && threads > c.maxPermits
    ensures AllInTurn(c, Start(threads), run)
    ensures Out(Run(c, Start(threads), run).threads) > c.maxPermits
  {
    var s0 := Start(threads);
    run := OpenedAndSwapped(c, threads);
    var swapped := Run(c, s0, run);
    // The others take all permits.
    var take := TakePermits(c, swapped);
    RunBoth(c, s0, run, take);
    run := run + take;
    var taken := Run(c, swapped, take);
    // Thread 0 stores zero and takes one more.
    var rest := seq(5, i => Advance(0));
    RunAlone(c, taken, 0, 5);
    AdvancesAreInTurn(c, taken, 0, 5);
    RunBoth(c, s0, run, rest);
    run := run + rest;
    ClearsAndTakes(c, taken.m, taken.clock, 5);
    OutAtLeast(Run(c, taken, rest).threads, c.maxPermits + 1);
  }

  lemma ClearsAndTakes(c: CB.Config, m: Memory, clock: nat, n: nat)
    requires c.Valid() && m.phase == CB.HalfOpen && n >= 5
    ensures OperateAlone(c, m, clock, ClearSuccesses, n).1 == Admitted(true)
  {
    var m1, p1 := AloneOnce(c, m, clock, ClearSuccesses, n);
    var m2, p2 := AloneOnce(c, m1, clock, p1, n - 1);
    SoloTake(c, m2, clock, n - 2);
  }
}
