/** The token bucket as its atomic operations, interleaved by any number of threads
    (`src/resilience/rate_limiter.rs`).  Claiming an interval is a compare-and-swap, but
    the tokens it is worth are then added by a plain load and a plain store. */
module TokenBucketThreads {
  import opened Wrappers
  import TB = TokenBucket

  /** Where a thread is inside `try_acquire_n(n)` (`want` is `Some(n)`) or
      `available_tokens` (`want` is `None`), with the values it has already loaded. */
  datatype Thread =
    | Idle
    | SampleClock(want: Option<nat>)
    | LoadLast(want: Option<nat>, now: int)
    | SwapLast(want: Option<nat>, now: int, last: int)
    | LoadForRefill(want: Option<nat>, add: nat)
    | StoreRefill(want: Option<nat>, add: nat, loaded: nat)
    | LoadTokens(want: Option<nat>)
    | SwapTokens(n: nat, left: nat)

  /** Shared memory, the threads, and an account of what happened.  `claimed` counts the
      intervals taken by successful swaps, `credited` what stores added to what their load
      saw, `overwritten` by how much the bucket was below the loaded value at the stores. */
  datatype State = State(
    tokens: nat, lastRefill: int, clock: int, threads: seq<Thread>,
    claimed: nat, granted: nat, credited: int, overwritten: int)

  datatype Action =
    | Tick(elapsed: nat)
    | Call(thread: nat, want: Option<nat>)
    | Advance(thread: nat)

  function Start(c: TB.Config, start: int, threads: nat): State {
    State(c.capacity, start, start, seq(threads, i => Idle), 0, 0, 0, 0)
  }

  /** One atomic operation of thread `t`. */
  function AdvanceThread(c: TB.Config, s: State, t: nat): State
    requires c.Valid() && t < |s.threads|
  {
    match s.threads[t]
    case Idle => s
    case SampleClock(want) =>
      s.(threads := s.threads[t := LoadLast(want, s.clock)])
    case LoadLast(want, now) =>
      s.(threads := s.threads[t :=
        if TB.Intervals(c, s.lastRefill, now) >= 1 then SwapLast(want, now, s.lastRefill)
        else LoadTokens(want)])
    case SwapLast(want, now, last) =>
      var k := TB.Intervals(c, last, now);
      if s.lastRefill == last then
        s.(lastRefill := last + k * c.intervalMs,
           claimed := s.claimed + k,
           threads := s.threads[t := LoadForRefill(want, k * c.refillAmount)])
      else
        s.(threads := s.threads[t := LoadTokens(want)])
    case LoadForRefill(want, add) =>
      s.(threads := s.threads[t := StoreRefill(want, add, s.tokens)])
    case StoreRefill(want, add, loaded) =>
      var stored := Min(loaded + add, c.capacity);
      s.(tokens := stored,
         credited := s.credited + stored - loaded,
         overwritten := s.overwritten + loaded - s.tokens,
         threads := s.threads[t := LoadTokens(want)])
    case LoadTokens(want) =>
      s.(threads := s.threads[t :=
        if want.Some? && want.value <= s.tokens
        then SwapTokens(want.value, s.tokens - want.value) else Idle])
    case SwapTokens(n, left) =>
      if s.tokens == n + left then
        s.(tokens := left, granted := s.granted + n, threads := s.threads[t := Idle])
      else
        s.(threads := s.threads[t := LoadTokens(Some(n))])
  }

  function Next(c: TB.Config, s: State, a: Action): State
    requires c.Valid()
  {
    match a
    case Tick(elapsed) => s.(clock := s.clock + elapsed)
    case Call(t, want) =>
      if t < |s.threads| && s.threads[t].Idle?
      then s.(threads := s.threads[t := SampleClock(want)]) else s
    case Advance(t) => if t < |s.threads| then AdvanceThread(c, s, t) else s
  }

  ghost function Run(c: TB.Config, s: State, actions: seq<Action>): State
    requires c.Valid()
    decreases |actions|
  {
    if actions == [] then s else Run(c, Next(c, s, actions[0]), actions[1..])
  }

  // ---- What threads in the middle of a refill still owe ----

  function Owed(t: Thread): nat {
    match t
    case LoadForRefill(_, add) => add
    case StoreRefill(_, add, _) => add
    case _ => 0
  }

  ghost function TotalOwed(threads: seq<Thread>): nat {
    if threads == [] then 0 else Owed(threads[0]) + TotalOwed(threads[1..])
  }

  lemma {:induction false} TotalOwedUpdate(threads: seq<Thread>, t: nat, x: Thread)
    requires t < |threads|
    ensures TotalOwed(threads[t := x]) == TotalOwed(threads) - Owed(threads[t]) + Owed(x)
  {
    var changed := threads[t := x];
    if t == 0 {
      assert changed[1..] == threads[1..];
    } else {
      assert changed[1..] == threads[1..][t - 1 := x];
      TotalOwedUpdate(threads[1..], t - 1, x);
    }
  }

  lemma {:induction false} NothingOwedAtStart(n: nat)
    ensures TotalOwed(seq(n, i => Idle)) == 0
  {
    var idle := seq(n, i => Idle);
    if n > 0 {
      assert idle[1..] == seq(n - 1, i => Idle);
      NothingOwedAtStart(n - 1);
    }
  }

  // ---- The invariant ----

  ghost predicate ThreadOk(c: TB.Config, clock: int, t: Thread) {
    match t
    case LoadLast(_, now) => now <= clock
    case LoadForRefill(_, add) => add >= c.refillAmount
    case SwapLast(_, now, last) => last + c.intervalMs <= now <= clock
    case StoreRefill(_, add, loaded) => add >= c.refillAmount && loaded <= c.capacity
    case _ => true
  }

  /** The bucket never overflows, and the tokens are accounted for exactly. */
  ghost predicate Ledger(c: TB.Config, s: State) {
    && s.tokens <= c.capacity
    && s.granted + s.tokens == c.capacity + s.credited + s.overwritten
    && 0 <= s.credited
    && (s.claimed == 0 ==> s.overwritten == 0)
  }

  /** Every interval is claimed at most once, and credited at most once. */
  ghost predicate Claims(c: TB.Config, start: int, s: State) {
    && s.lastRefill == start + s.claimed * c.intervalMs <= s.clock
    && s.credited + TotalOwed(s.threads) <= s.claimed * c.refillAmount
  }

  ghost predicate Inv(c: TB.Config, start: int, s: State) {
    && Ledger(c, s)
    && Claims(c, start, s)
    && forall i | 0 <= i < |s.threads| :: ThreadOk(c, s.clock, s.threads[i])
  }

  lemma StartIsOk(c: TB.Config, start: int, threads: nat)
    requires c.Valid()
    ensures Inv(c, start, Start(c, start, threads))
  {
    NothingOwedAtStart(threads);
  }

  lemma AdvanceKeepsLedger(c: TB.Config, start: int, s: State, t: nat)
    requires c.Valid() && t < |s.threads| && Inv(c, start, s)
    ensures Ledger(c, AdvanceThread(c, s, t))
  {
    assert ThreadOk(c, s.clock, s.threads[t]);
    TotalOwedUpdate(s.threads, t, Idle);
  }

  lemma {:induction false} AdvanceKeepsClaims(c: TB.Config, start: int, s: State, t: nat)
    requires c.Valid() && t < |s.threads| && Inv(c, start, s)
    ensures Claims(c, start, AdvanceThread(c, s, t))
  {
    var s' := AdvanceThread(c, s, t);
    assert ThreadOk(c, s.clock, s.threads[t]);
    TotalOwedUpdate(s.threads, t, s'.threads[t]);
    assert s'.threads == s.threads[t := s'.threads[t]];
    if s.threads[t].SwapLast? && s.lastRefill == s.threads[t].last {
      var k := TB.Intervals(c, s.lastRefill, s.threads[t].now);
      TB.IntervalsCompose(c, s.lastRefill, s.threads[t].now, s.threads[t].now);
      ScaleSum(c.intervalMs, s.claimed, k);
      ScaleSum(c.refillAmount, s.claimed, k);
    }
  }

  lemma WholeInterval(c: TB.Config, last: int, now: int)
    requires c.Valid()
    ensures TB.Intervals(c, last, now) >= 1 <==> now >= last + c.intervalMs
  {
    if now >= last {
      TB.IntervalsCompose(c, last, now, now);
      var k := TB.Intervals(c, last, now);
      if k >= 1 {
        ScaleSum(c.intervalMs, 1, k - 1);
      }
    }
  }

  lemma AdvanceKeepsThreads(c: TB.Config, start: int, s: State, t: nat)
    requires c.Valid() && t < |s.threads| && Inv(c, start, s)
    ensures var s' := AdvanceThread(c, s, t);
            forall i | 0 <= i < |s'.threads| :: ThreadOk(c, s'.clock, s'.threads[i])
  {
    assert ThreadOk(c, s.clock, s.threads[t]);
    var s' := AdvanceThread(c, s, t);
    match s.threads[t] {
      case LoadLast(_, now) =>
        WholeInterval(c, s.lastRefill, now);
      case SwapLast(_, now, last) =>
        WholeInterval(c, last, now);
        ScaleSum(c.refillAmount, 1, TB.Intervals(c, last, now) - 1);
      case _ =>
    }
    assert ThreadOk(c, s.clock, s'.threads[t]);
  }

  lemma NextKeepsInv(c: TB.Config, start: int, s: State, a: Action)
    requires c.Valid() && Inv(c, start, s)
    ensures Inv(c, start, Next(c, s, a))
  {
    if a.Advance? && a.thread < |s.threads| {
      AdvanceKeepsLedger(c, start, s, a.thread);
      AdvanceKeepsClaims(c, start, s, a.thread);
      AdvanceKeepsThreads(c, start, s, a.thread);
    } else if a.Call? && a.thread < |s.threads| && s.threads[a.thread].Idle? {
      TotalOwedUpdate(s.threads, a.thread, SampleClock(a.want));
    }
  }

  /** What holds after every interleaving of any calls by any number of threads. */
  lemma {:induction false} EveryInterleaving(c: TB.Config, start: int, s: State, actions: seq<Action>)
    requires c.Valid() && Inv(c, start, s)
    ensures Inv(c, start, Run(c, s, actions))
    decreases |actions|
  {
    if actions != [] {
      NextKeepsInv(c, start, s, actions[0]);
      EveryInterleaving(c, start, Next(c, s, actions[0]), actions[1..]);
    }
  }

  // ---- What the invariant means for callers ----

  /** Without `reset`, after any interleaving that begins with a full bucket: the bucket is
      within its capacity, the refill mark has moved by exactly the claimed intervals, all of
      them over, and while nothing has been claimed no token is made or lost. */
  lemma BucketIsSafe(c: TB.Config, start: int, threads: nat, actions: seq<Action>)
    requires c.Valid()
    ensures var s := Run(c, Start(c, start, threads), actions);
      && s.tokens <= c.capacity
      && s.lastRefill == start + s.claimed * c.intervalMs <= s.clock
      && (s.claimed == 0 ==> s.granted + s.tokens == c.capacity)
  {
    StartIsOk(c, start, threads);
    EveryInterleaving(c, start, Start(c, start, threads), actions);
    var s := Run(c, Start(c, start, threads), actions);
    if s.claimed == 0 {
      assert s.claimed * c.refillAmount == 0;
    }
  }

  /** No store of the run puts back tokens that were taken after its load. */
  ghost predicate Undisturbed(c: TB.Config, s: State, actions: seq<Action>)
    requires c.Valid()
    decreases |actions|
  {
    actions == [] || (
      && (actions[0].Advance? && actions[0].thread < |s.threads|
          && s.threads[actions[0].thread].StoreRefill?
          ==> s.threads[actions[0].thread].loaded <= s.tokens)
      && Undisturbed(c, Next(c, s, actions[0]), actions[1..]))
  }

  lemma {:induction false} UndisturbedOverwritesNothing(c: TB.Config, s: State, actions: seq<Action>)
    requires c.Valid() && Undisturbed(c, s, actions)
    ensures Run(c, s, actions).overwritten <= s.overwritten
    decreases |actions|
  {
    if actions != [] {
      UndisturbedOverwritesNothing(c, Next(c, s, actions[0]), actions[1..]);
    }
  }

  /** If no store is disturbed, all threads together get at most the capacity and one refill
      amount for each interval that has ended. */
  lemma {:induction false} UndisturbedRateBound(c: TB.Config, start: int, threads: nat, actions: seq<Action>)
    requires c.Valid() && Undisturbed(c, Start(c, start, threads), actions)
    ensures var s := Run(c, Start(c, start, threads), actions);
            s.clock >= start
            && s.granted + s.tokens <= c.capacity + (s.clock - start) / c.intervalMs * c.refillAmount
  {
    StartIsOk(c, start, threads);
    EveryInterleaving(c, start, Start(c, start, threads), actions);
    UndisturbedOverwritesNothing(c, Start(c, start, threads), actions);
    ClaimedHaveEnded(c, start, Run(c, Start(c, start, threads), actions));
  }

  /** Only intervals that have ended are claimed. */
  lemma ClaimedHaveEnded(c: TB.Config, start: int, s: State)
    requires c.Valid() && Claims(c, start, s)
    ensures s.clock >= start
    ensures s.claimed * c.refillAmount <= (s.clock - start) / c.intervalMs * c.refillAmount
  {
    var ended := (s.clock - start) / c.intervalMs;
    assert s.clock - start < (ended + 1) * c.intervalMs;
    if s.claimed > ended {
      ScaleMonotone(c.intervalMs, ended + 1, s.claimed);
    }
    ScaleMonotone(c.refillAmount, s.claimed, ended);
  }

  /** One more action at the end of a run. */
  lemma {:induction false} Extend(c: TB.Config, s: State, actions: seq<Action>, a: Action, last: State, next: State)
      returns (more: seq<Action>)
    requires c.Valid() && Run(c, s, actions) == last && Next(c, last, a) == next
    ensures more == actions + [a] && Run(c, s, more) == next
    decreases |actions|
  {
    more := actions + [a];
    if actions == [] {
      assert more[1..] == [];
    } else {
      assert more[1..] == actions[1..] + [a];
      var _ := Extend(c, Next(c, s, actions[0]), actions[1..], a, last, next);
    }
  }

  function BucketOf(s: State): TB.Bucket {
    TB.Bucket(s.tokens, s.lastRefill)
  }

  /** A call that runs with no other thread in between does what the one-step `Acquire` of
      TokenBucket does, and ends. */
  lemma {:induction false} SoloCallIsAtomic(c: TB.Config, s: State, t: nat, n: nat) returns (run: seq<Action>)
    requires c.Valid() && t < |s.threads| && s.threads[t].Idle?
    ensures forall a | a in run :: a == Call(t, Some(n)) || a == Advance(t)
    ensures var end := Run(c, s, run);
            var (bucket, ok) := TB.Acquire(c, BucketOf(s), n, s.clock);
            && BucketOf(end) == bucket
            && end.granted == s.granted + (if ok then n else 0)
            && end.threads == s.threads
  {
    var want := Some(n);
    var s1 := Next(c, s, Call(t, want));
    run := Extend(c, s, [], Call(t, want), s, s1);
    var s2 := Next(c, s1, Advance(t));
    run := Extend(c, s, run, Advance(t), s1, s2);
    var s3 := Next(c, s2, Advance(t));
    run := Extend(c, s, run, Advance(t), s2, s3);
    assert s1.threads[t] == SampleClock(want) && s2.threads[t] == LoadLast(want, s.clock);
    var ready := s3;
    if s3.threads[t].SwapLast? {
      var s4 := Next(c, s3, Advance(t));
      run := Extend(c, s, run, Advance(t), s3, s4);
      var s5 := Next(c, s4, Advance(t));
      run := Extend(c, s, run, Advance(t), s4, s5);
      ready := Next(c, s5, Advance(t));
      run := Extend(c, s, run, Advance(t), s5, ready);
    }
    assert BucketOf(ready) == TB.Refill(c, BucketOf(s), s.clock);
    assert ready.threads == s.threads[t := LoadTokens(want)];
    var s6 := Next(c, ready, Advance(t));
    run := Extend(c, s, run, Advance(t), ready, s6);
    if s6.threads[t].SwapTokens? {
      var s7 := Next(c, s6, Advance(t));
      run := Extend(c, s, run, Advance(t), s6, s7);
      assert s7.threads == s.threads;
    } else {
      assert s6.threads == s.threads;
    }
  }

  /** How many operations a thread is from the end of its call if no other thread takes a step. */
  ghost function StepsLeft(s: State, t: nat): nat
    requires t < |s.threads|
  {
    match s.threads[t]
    case Idle => 0
    case SampleClock(_) => 7
    case LoadLast(_, _) => 6
    case SwapLast(_, _, last) => if s.lastRefill == last then 5 else 3
    case LoadForRefill(_, _) => 4
    case StoreRefill(_, _, _) => 3
    case LoadTokens(_) => 2
    case SwapTokens(n, left) => if s.tokens == n + left then 1 else 3
  }

  ghost function AdvanceAlone(c: TB.Config, s: State, t: nat, n: nat): (r: State)
    requires c.Valid() && t < |s.threads|
    ensures |r.threads| == |s.threads|
    decreases n
  {
    if n == 0 then s else AdvanceAlone(c, Next(c, s, Advance(t)), t, n - 1)
  }

  lemma EachOperationCounts(c: TB.Config, s: State, t: nat)
    requires c.Valid() && t < |s.threads| && !s.threads[t].Idle?
    ensures var r := Next(c, s, Advance(t));
      |r.threads| == |s.threads| && StepsLeft(r, t) < StepsLeft(s, t)
  {
  }

  /** No call is ever stuck: wherever a thread is, whatever the others did since it last looked, seven
      operations of its own with no other thread in between bring its call to its end. */
  lemma {:induction false} EveryCallEnds(c: TB.Config, s: State, t: nat, n: nat)
    requires c.Valid() && t < |s.threads| && n >= StepsLeft(s, t)
    ensures AdvanceAlone(c, s, t, n).threads[t].Idle? && StepsLeft(s, t) <= 7
    decreases n
  {
    if n > 0 {
      var next := Next(c, s, Advance(t));
      if !s.threads[t].Idle? {
        EachOperationCounts(c, s, t);
      }
      EveryCallEnds(c, next, t, n - 1);
    }
  }

  // ---- When all threads together keep to the rate ----

  /** What has been granted, and what is left, come to no more than the capacity and one refill
      amount for each interval that was claimed. */
  ghost predicate WithinRate(c: TB.Config, s: State) {
    s.granted + s.tokens <= c.capacity + s.claimed * c.refillAmount
  }

  /** The documented rate: the capacity and one refill amount for each interval that has ended. */
  ghost predicate WithinDocumentedRate(c: TB.Config, start: int, s: State)
    requires c.Valid()
  {
    s.granted + s.tokens <= c.capacity + (s.clock - start) / c.intervalMs * c.refillAmount
  }

  /** A single thread is never disturbed: what it loaded is still there when it stores. */
  lemma {:induction false} AloneIsUndisturbed(c: TB.Config, s: State, actions: seq<Action>)
    requires c.Valid() && |s.threads| <= 1
    requires |s.threads| == 1 && s.threads[0].StoreRefill? ==> s.threads[0].loaded == s.tokens
    ensures Undisturbed(c, s, actions)
    decreases |actions|
  {
    if actions != [] {
      AloneIsUndisturbed(c, Next(c, s, actions[0]), actions[1..]);
    }
  }

  /** When one refill amount fills the bucket, a store never brings back more than the intervals
      it stands for are worth. */
  ghost predicate Prepaid(c: TB.Config, s: State) {
    s.granted + s.tokens + TotalOwed(s.threads) <= c.capacity + s.claimed * c.refillAmount
  }

  lemma AdvanceKeepsPrepaid(c: TB.Config, start: int, s: State, t: nat)
    requires c.Valid() && c.capacity <= c.refillAmount && t < |s.threads|
    requires Inv(c, start, s) && Prepaid(c, s)
    ensures Prepaid(c, AdvanceThread(c, s, t))
  {
    var s' := AdvanceThread(c, s, t);
    assert ThreadOk(c, s.clock, s.threads[t]);
    TotalOwedUpdate(s.threads, t, s'.threads[t]);
    assert s'.threads == s.threads[t := s'.threads[t]];
    if s.threads[t].SwapLast? && s.lastRefill == s.threads[t].last {
      ScaleSum(c.refillAmount, s.claimed, TB.Intervals(c, s.lastRefill, s.threads[t].now));
    }
  }

  lemma {:induction false} StaysPrepaid(c: TB.Config, start: int, s: State, actions: seq<Action>)
    requires c.Valid() && c.capacity <= c.refillAmount && Inv(c, start, s) && Prepaid(c, s)
    ensures Prepaid(c, Run(c, s, actions))
    decreases |actions|
  {
    if actions != [] {
      var a := actions[0];
      NextKeepsInv(c, start, s, a);
      if a.Advance? && a.thread < |s.threads| {
        AdvanceKeepsPrepaid(c, start, s, a.thread);
      } else if a.Call? && a.thread < |s.threads| && s.threads[a.thread].Idle? {
        TotalOwedUpdate(s.threads, a.thread, SampleClock(a.want));
      }
      StaysPrepaid(c, start, Next(c, s, a), actions[1..]);
    }
  }

  lemma FewOrFullKeepRate(c: TB.Config, start: int, threads: nat, actions: seq<Action>)
    requires c.Valid() && (threads <= 1 || c.capacity <= c.refillAmount)
    ensures var end := Run(c, Start(c, start, threads), actions);
      WithinRate(c, end) && WithinDocumentedRate(c, start, end)
  {
    var s := Start(c, start, threads);
    StartIsOk(c, start, threads);
    EveryInterleaving(c, start, s, actions);
    if threads <= 1 {
      AloneIsUndisturbed(c, s, actions);
      UndisturbedOverwritesNothing(c, s, actions);
    } else {
      NothingOwedAtStart(threads);
      StaysPrepaid(c, start, s, actions);
    }
    ClaimedHaveEnded(c, start, Run(c, s, actions));
  }

  /** All threads together keep to the documented rate in every interleaving exactly when there is
      at most one of them, or one refill amount fills the bucket. */
  lemma RateHoldsExactly(c: TB.Config, start: int, threads: nat)
    requires c.Valid()
    ensures (forall actions :: WithinDocumentedRate(c, start, Run(c, Start(c, start, threads), actions)))
            <==> threads <= 1 || c.capacity <= c.refillAmount
  {
    if threads <= 1 || c.capacity <= c.refillAmount {
      forall actions ensures WithinDocumentedRate(c, start, Run(c, Start(c, start, threads), actions)) {
        FewOrFullKeepRate(c, start, threads, actions);
      }
    } else {
      var actions := DisturbedStoreOvergrants(c, start, threads);
    }
  }

  /** Thread 0 claims an interval and loads the tokens of a full bucket. */
  lemma ClaimedAndLoaded(c: TB.Config, start: int, threads: nat) returns (run: seq<Action>, end: State)
    requires c.Valid() && threads >= 2
    ensures end == Run(c, Start(c, start, threads), run)
    ensures |end.threads| == threads && end.threads[1].Idle?
    ensures end.threads[0] == StoreRefill(Some(c.capacity), c.refillAmount, c.capacity)
    ensures end.tokens == c.capacity && end.granted == 0 && end.claimed == 1
    ensures end.lastRefill == end.clock == start + c.intervalMs
  {
    var all: Option<nat> := Some(c.capacity);
    var now := start + c.intervalMs;
    var s0 := Start(c, start, threads);
    var s1 := s0.(clock := now);
    run := Extend(c, s0, [], Tick(c.intervalMs), s0, s1);
    var s2 := s1.(threads := s1.threads[0 := SampleClock(all)]);
    run := Extend(c, s0, run, Call(0, all), s1, s2);
    var s3 := s1.(threads := s2.threads[0 := LoadLast(all, now)]);
    run := Extend(c, s0, run, Advance(0), s2, s3);
    TB.QuotientUnique(c.intervalMs, c.intervalMs, 1);
    var s4 := s1.(threads := s3.threads[0 := SwapLast(all, now, start)]);
    run := Extend(c, s0, run, Advance(0), s3, s4);
    var s5 := s1.(lastRefill := now, claimed := 1, threads := s4.threads[0 := LoadForRefill(all, c.refillAmount)]);
    run := Extend(c, s0, run, Advance(0), s4, s5);
    end := s5.(threads := s5.threads[0 := StoreRefill(all, c.refillAmount, c.capacity)]);
    run := Extend(c, s0, run, Advance(0), s5, end);
  }

  /** Thread 1 takes the full bucket, thread 0 stores what it had loaded and takes it again. */
  lemma DisturbedStoreOvergrants(c: TB.Config, start: int, threads: nat) returns (run: seq<Action>)
    requires c.Valid() && threads >= 2 && c.capacity > c.refillAmount
    ensures var s := Run(c, Start(c, start, threads), run);
      && s.granted == 2 * c.capacity && s.claimed == 1 && s.clock == start + c.intervalMs
      && !WithinRate(c, s) && !WithinDocumentedRate(c, start, s)
  {
    var all: Option<nat> := Some(c.capacity);
    var s0 := Start(c, start, threads);
    var s1;
    run, s1 := ClaimedAndLoaded(c, start, threads);
    var s2 := s1.(threads := s1.threads[1 := SampleClock(all)]);
    run := Extend(c, s0, run, Call(1, all), s1, s2);
    var s3 := s1.(threads := s2.threads[1 := LoadLast(all, s1.clock)]);
    run := Extend(c, s0, run, Advance(1), s2, s3);
    TB.QuotientIsZero(0, c.intervalMs);
    var s4 := s1.(threads := s3.threads[1 := LoadTokens(all)]);
    run := Extend(c, s0, run, Advance(1), s3, s4);
    var s5 := s1.(threads := s4.threads[1 := SwapTokens(c.capacity, 0)]);
    run := Extend(c, s0, run, Advance(1), s4, s5);
    var s6 := s1.(tokens := 0, granted := c.capacity, threads := s5.threads[1 := Idle]);
    run := Extend(c, s0, run, Advance(1), s5, s6);
    var s7 := Next(c, s6, Advance(0));
    assert s7.tokens == c.capacity && s7.threads[0] == LoadTokens(all);
    run := Extend(c, s0, run, Advance(0), s6, s7);
    var s8 := s7.(threads := s7.threads[0 := SwapTokens(c.capacity, 0)]);
    run := Extend(c, s0, run, Advance(0), s7, s8);
    var s9 := s8.(tokens := 0, granted := 2 * c.capacity, threads := s8.threads[0 := Idle]);
    run := Extend(c, s0, run, Advance(0), s8, s9);
    TB.QuotientUnique(c.intervalMs, c.intervalMs, 1);
  }
}
