/** The circuit breaker in front of a Modbus device (`src/resilience/circuit_breaker.rs`),
    with each call taken as one step.  CircuitBreakerThreads interleaves the atomic
    operations inside the calls.  The wall clock it reads may jump either way. */
module CircuitBreaker {
  import opened Wrappers

  const SUCCESS_THRESHOLD: nat := 2

  datatype Phase = Closed | Open | HalfOpen

  datatype Config = Config(threshold: nat, recoveryMs: nat, maxPermits: nat) {
    ghost predicate Valid() {
      maxPermits >= 1
    }
  }

  /** `with_half_open_limit` raises a limit of zero to one. */
  function MakeConfig(threshold: nat, recoveryMs: nat, maxPermits: nat): (c: Config)
    ensures c.Valid() && (maxPermits > 0 ==> c.maxPermits == maxPermits) && (maxPermits == 0 ==> c.maxPermits == 1)
  {
    Config(threshold, recoveryMs, Max(maxPermits, 1))
  }

  datatype Breaker = Breaker(phase: Phase, failures: nat, successes: nat, lastFailure: nat, permits: nat)

  const FRESH: Breaker := Breaker(Closed, 0, 0, 0, 0)

  /** An open breaker lets a request try again.  A stored time of zero reads as unset. */
  predicate RecoveryDue(c: Config, b: Breaker, now: nat) {
    b.lastFailure > 0 && Max(now - b.lastFailure, 0) >= c.recoveryMs
  }

  /** The state after `is_open`, and whether the request is rejected. */
  function Ask(c: Config, b: Breaker, now: nat): (Breaker, bool)
    requires c.Valid()
  {
    match b.phase
    case Closed => (b, false)
    case Open =>
      if RecoveryDue(c, b, now) then (b.(phase := HalfOpen, successes := 0, permits := 1), false)
      else (b, true)
    case HalfOpen =>
      if b.permits < c.maxPermits then (b.(permits := b.permits + 1), false) else (b, true)
  }

  function ReleasePermit(b: Breaker): Breaker {
    if b.phase == HalfOpen then b.(permits := Max(b.permits - 1, 0)) else b
  }

  function RecordSuccess(b: Breaker): Breaker {
    match b.phase
    case Closed => b.(failures := 0)
    case Open => b
    case HalfOpen =>
      if b.successes + 1 >= SUCCESS_THRESHOLD
      then Breaker(Closed, 0, b.successes + 1, b.lastFailure, 0)
      else ReleasePermit(b).(successes := b.successes + 1)
  }

  function RecordFailure(c: Config, b: Breaker, now: nat): Breaker {
    match b.phase
    case Closed =>
      if b.failures + 1 >= c.threshold
      then b.(phase := Open, failures := b.failures + 1, lastFailure := now)
      else b.(failures := b.failures + 1)
    case Open => b
    case HalfOpen => ReleasePermit(b).(phase := Open, lastFailure := now)
  }

  class CircuitBreaker {
    const config: Config
    var phase: Phase
    var failureCount: nat
    var successCount: nat
    var lastFailureMs: nat
    var halfOpenPermits: nat

    ghost function State(): Breaker
      reads this
    {
      Breaker(phase, failureCount, successCount, lastFailureMs, halfOpenPermits)
    }

    constructor (config: Config)
      ensures this.config == config && State() == FRESH
    {
      this.config := config;
      phase, failureCount, successCount, lastFailureMs, halfOpenPermits := Closed, 0, 0, 0, 0;
    }

    method IsOpen(now: nat) returns (rejected: bool)
      requires config.Valid()
      modifies this
      ensures (State(), rejected) == Ask(config, old(State()), now)
    {
      while true
        invariant State() == old(State())
          || (old(phase) == Open && RecoveryDue(config, old(State()), now)
              && State() == old(State()).(phase := HalfOpen, successes := 0, permits := 0))
        decreases phase == Open
      {
        match phase
        case Closed => return false;
        case Open =>
          if lastFailureMs == 0 || Max(now - lastFailureMs, 0) < config.recoveryMs {
            return true;
          }
          phase := HalfOpen;
          successCount := 0;
          halfOpenPermits := 0;
        case HalfOpen =>
          if halfOpenPermits >= config.maxPermits {
            return true;
          }
          halfOpenPermits := halfOpenPermits + 1;
          return false;
      }
    }

    method Release()
      modifies this
      ensures State() == ReleasePermit(old(State()))
    {
      if phase == HalfOpen && halfOpenPermits > 0 {
        halfOpenPermits := halfOpenPermits - 1;
      }
    }

    method Success()
      modifies this
      ensures State() == RecordSuccess(old(State()))
    {
      match phase
      case HalfOpen =>
        Release();
        successCount := successCount + 1;
        if successCount >= SUCCESS_THRESHOLD {
          phase := Closed;
          failureCount := 0;
          halfOpenPermits := 0;
        }
      case Closed =>
        failureCount := 0;
      case Open =>
    }

    method Failure(now: nat)
      modifies this
      ensures State() == RecordFailure(config, old(State()), now)
    {
      match phase
      case Closed =>
        failureCount := failureCount + 1;
        if failureCount >= config.threshold {
          OpenCircuit(now);
        }
      case HalfOpen =>
        Release();
        OpenCircuit(now);
      case Open =>
    }

    method OpenCircuit(now: nat)
      modifies this
      ensures State() == old(State()).(phase := Open, lastFailure := now)
    {
      lastFailureMs := now;
      phase := Open;
    }

    method Reset()
      modifies this
      ensures State() == FRESH
    {
      phase, failureCount, successCount, lastFailureMs, halfOpenPermits := Closed, 0, 0, 0, 0;
    }
  }

  // ---- Histories ----

  datatype Event = Asked(now: nat) | Succeeded | Failed(now: nat) | Released

  function Step(c: Config, b: Breaker, e: Event): Breaker
    requires c.Valid()
  {
    match e
    case Asked(now) => Ask(c, b, now).0
    case Succeeded => RecordSuccess(b)
    case Failed(now) => RecordFailure(c, b, now)
    case Released => ReleasePermit(b)
  }

  ghost function Run(c: Config, b: Breaker, history: seq<Event>): Breaker
    requires c.Valid()
  {
    if history == [] then b
    else Step(c, Run(c, b, history[..|history| - 1]), history[|history| - 1])
  }

  /** How many failures in a row the reports of a history end in. */
  ghost function FailuresInARow(history: seq<Event>): nat {
    if history == [] then 0
    else
      match history[|history| - 1]
      case Failed(_) => FailuresInARow(history[..|history| - 1]) + 1
      case Succeeded => 0
      case _ => FailuresInARow(history[..|history| - 1])
  }

  /** A threshold of zero opens, like one, at the first failure. */
  function FailuresToOpen(c: Config): nat {
    Max(c.threshold, 1)
  }

  /** From fresh, or from any moment it closes, a breaker stays closed until its reports end in
      the threshold number of failures, and opens then, at the time of the last of them. */
  lemma {:induction false} OpensAtThreshold(c: Config, b0: Breaker, history: seq<Event>)
    requires c.Valid() && b0.phase == Closed && b0.failures == 0
    requires forall k | 0 <= k < |history| :: FailuresInARow(history[..k]) < FailuresToOpen(c)
    ensures var b := Run(c, b0, history);
      if FailuresInARow(history) < FailuresToOpen(c)
      then b.phase == Closed && b.failures == FailuresInARow(history)
      else b.phase == Open && history[|history| - 1] == Failed(b.lastFailure)
  {
    if history != [] {
      var earlier := history[..|history| - 1];
      assert forall k | 0 <= k < |earlier| :: earlier[..k] == history[..k];
      OpensAtThreshold(c, b0, earlier);
    }
  }

  /** While open, nothing that is reported, asked too early or released moves the deadline. */
  lemma {:induction false} OpenHoldsItsDeadline(c: Config, b: Breaker, history: seq<Event>)
    requires c.Valid() && b.phase == Open
    requires forall e | e in history && e.Asked? :: !RecoveryDue(c, b, e.now)
    ensures Run(c, b, history) == b
    ensures forall now :: Ask(c, Run(c, b, history), now).1 <==> !RecoveryDue(c, b, now)
  {
    if history != [] {
      var earlier := history[..|history| - 1];
      assert forall e | e in earlier :: e in history;
      assert history[|history| - 1] in history;
      OpenHoldsItsDeadline(c, b, earlier);
    }
  }

  /** A breaker that opened when the clock read zero never lets anything through again; every
      other open breaker does, once its timeout has passed. */
  lemma RecoversUnlessOpenedAtZero(c: Config, b: Breaker)
    requires c.Valid() && b.phase == Open
    ensures (forall history: seq<Event> :: Run(c, b, history).phase == Open) <==> b.lastFailure == 0
  {
    if b.lastFailure == 0 {
      forall history: seq<Event> ensures Run(c, b, history).phase == Open {
        OpenHoldsItsDeadline(c, b, history);
      }
    } else {
      var due := [Asked(b.lastFailure + c.recoveryMs)];
      assert due[..0] == [];
      assert Run(c, b, due).phase == HalfOpen;
    }
  }

  /** A half-open phase has seen no failure and fewer than two successes. */
  ghost predicate Undecided(history: seq<Event>) {
    Successes(history) < SUCCESS_THRESHOLD && forall e | e in history :: !e.Failed?
  }

  ghost function Successes(history: seq<Event>): nat {
    if history == [] then 0
    else Successes(history[..|history| - 1]) + if history[|history| - 1].Succeeded? then 1 else 0
  }

  /** From the moment it becomes half-open a breaker stays so while undecided, closes at the
      second success before any failure, and reopens at the first failure. */
  lemma {:induction false} HalfOpenDecides(c: Config, b: Breaker, history: seq<Event>)
    requires c.Valid() && b.phase == HalfOpen && b.successes == 0
    requires forall k | 0 <= k < |history| :: Undecided(history[..k])
    ensures var b' := Run(c, b, history);
      if Undecided(history) then b'.phase == HalfOpen && b'.successes == Successes(history)
      else if history[|history| - 1].Failed?
      then b'.phase == Open && history[|history| - 1] == Failed(b'.lastFailure)
      else b'.phase == Closed && b'.failures == 0 && b'.permits == 0
           && history[|history| - 1] == Succeeded && Successes(history) == SUCCESS_THRESHOLD
  {
    if history != [] {
      var earlier := history[..|history| - 1];
      assert forall k | 0 <= k < |earlier| :: earlier[..k] == history[..k];
      assert Undecided(earlier);
      HalfOpenDecides(c, b, earlier);
      if !Undecided(history) && !history[|history| - 1].Failed? {
        assert history == earlier + [history[|history| - 1]];
        assert Successes(history) >= SUCCESS_THRESHOLD;
      }
    }
  }

  /** One whole recovery: asked too early any number of times, then asked when due, then left
      to run until the outcome is decided. */
  lemma RecoveryCycle(c: Config, b: Breaker, waiting: seq<Event>, now: nat, trial: seq<Event>)
    requires c.Valid() && b.phase == Open
    requires forall e | e in waiting && e.Asked? :: !RecoveryDue(c, b, e.now)
    requires RecoveryDue(c, b, now)
    requires trial != [] && !Undecided(trial) && forall k | 0 <= k < |trial| :: Undecided(trial[..k])
    ensures var asked := Ask(c, Run(c, b, waiting), now);
      && !asked.1 && asked.0.phase == HalfOpen && asked.0.permits == 1
      && Run(c, asked.0, trial).phase == (if trial[|trial| - 1].Failed? then Open else Closed)
  {
    OpenHoldsItsDeadline(c, b, waiting);
    HalfOpenDecides(c, Ask(c, b, now).0, trial);
  }

  // ---- The phases of a whole history ----

  /** A phase, how many events came before it began, and when the breaker last opened. */
  datatype Stage = Stage(phase: Phase, since: nat, openedAt: nat)

  predicate PastDeadline(c: Config, openedAt: nat, now: nat) {
    openedAt > 0 && (c.recoveryMs == 0 || now >= openedAt + c.recoveryMs)
  }

  /** How a phase goes on or ends, by the events it has `seen`, the last of them `seen`'s last: a
      closed phase ends with the threshold-th failure in a row since it began, an open one with
      the first request past its deadline, a half-open one with its first failure or its second
      success. */
  ghost function NextStage(c: Config, s: Stage, seen: seq<Event>, length: nat): Stage
    requires seen != []
  {
    var e := seen[|seen| - 1];
    match s.phase
    case Closed =>
      if e.Failed? && FailuresInARow(seen) >= FailuresToOpen(c) then Stage(Open, length, e.now) else s
    case Open =>
      if e.Asked? && PastDeadline(c, s.openedAt, e.now) then Stage(HalfOpen, length, s.openedAt) else s
    case HalfOpen =>
      if e.Failed? then Stage(Open, length, e.now)
      else if Successes(seen) >= SUCCESS_THRESHOLD then Stage(Closed, length, s.openedAt)
      else s
  }

  /** The phase after a history, read off the history alone. */
  ghost function StageOf(c: Config, history: seq<Event>): (s: Stage)
    ensures s.since <= |history|
  {
    if history == [] then Stage(Closed, 0, 0)
    else
      var s := StageOf(c, history[..|history| - 1]);
      NextStage(c, s, history[s.since..], |history|)
  }

  /** The breaker is in the phase of the stage, with the counts of what that phase has seen. */
  ghost predicate Follows(c: Config, b: Breaker, s: Stage, seen: seq<Event>) {
    && b.phase == s.phase
    && (s.phase == Open ==> b.lastFailure == s.openedAt)
    && (s.phase == Closed ==> b.failures == FailuresInARow(seen) < FailuresToOpen(c))
    && (s.phase == HalfOpen ==> b.successes == Successes(seen) < SUCCESS_THRESHOLD)
  }

  lemma FollowsNext(c: Config, b: Breaker, s: Stage, seen: seq<Event>, length: nat)
    requires c.Valid() && seen != [] && s.since < length && Follows(c, b, s, seen[..|seen| - 1])
    ensures var next := NextStage(c, s, seen, length);
      Follows(c, Step(c, b, seen[|seen| - 1]), next, if next.since == length then [] else seen)
  {
  }

  /** Over every history the phase of a breaker is the one its history says, with the counts
      since it began. */
  lemma {:induction false} PhaseIsHistory(c: Config, history: seq<Event>)
    requires c.Valid()
    ensures var s := StageOf(c, history);
      Follows(c, Run(c, FRESH, history), s, history[s.since..])
  {
    if history != [] {
      var n := |history| - 1;
      var s := StageOf(c, history[..n]);
      var seen := history[s.since..];
      PhaseIsHistory(c, history[..n]);
      assert seen[..|seen| - 1] == history[..n][s.since..] && seen[|seen| - 1] == history[n];
      FollowsNext(c, Run(c, FRESH, history[..n]), s, seen, |history|);
      assert history[|history|..] == [];
    }
  }

  /** And so are its answers: it rejects before the deadline of an open phase, and in a half-open
      phase when all permits are out. */
  lemma AnswersFollowHistory(c: Config, history: seq<Event>, now: nat)
    requires c.Valid()
    ensures var b, s := Run(c, FRESH, history), StageOf(c, history);
      Ask(c, b, now).1 <==>
        match s.phase
        case Closed => false
        case Open => !PastDeadline(c, s.openedAt, now)
        case HalfOpen => b.permits >= c.maxPermits
  {
    PhaseIsHistory(c, history);
  }

  // ---- Who holds the permits ----

  /** A breaker together with the requests that were admitted while it was half-open, in the
      current half-open phase, and have not reported back. */
  datatype Tracked = Tracked(b: Breaker, holders: set<nat>)

  /** A request, by its number, asks or reports. */
  datatype Request =
    | Enter(id: nat, now: nat)
    | Good(id: nat)
    | Bad(id: nat, now: nat)
    | GiveUp(id: nat)

  function EventOf(r: Request): Event {
    match r
    case Enter(_, now) => Asked(now)
    case Good(_) => Succeeded
    case Bad(_, now) => Failed(now)
    case GiveUp(_) => Released
  }

  function Track(c: Config, t: Tracked, r: Request): Tracked
    requires c.Valid()
  {
    var b := Step(c, t.b, EventOf(r));
    if b.phase != HalfOpen then Tracked(b, {})
    else if r.Enter? then
      if Ask(c, t.b, r.now).1 then Tracked(b, t.holders)
      else Tracked(b, (if t.b.phase == HalfOpen then t.holders else {}) + {r.id})
    else Tracked(b, t.holders - {r.id})
  }

  ghost predicate PermitsAreHolders(c: Config, t: Tracked) {
    t.b.permits <= c.maxPermits && (t.b.phase == HalfOpen ==> |t.holders| == t.b.permits)
  }

  /** The request is new if it asks, and holds a permit if it reports in the half-open phase. */
  ghost predicate InTurn(t: Tracked, r: Request) {
    if r.Enter? then r.id !in t.holders
    else t.b.phase == HalfOpen ==> r.id in t.holders
  }

  /** A report in the half-open phase, unless it ends the phase, keeps the count of permits
      exact precisely when the reporter holds one or none is out. */
  lemma ReportKeepsCountExactly(c: Config, t: Tracked, r: Request)
    requires c.Valid() && PermitsAreHolders(c, t)
    requires t.b.phase == HalfOpen && !r.Enter? && Track(c, t, r).b.phase == HalfOpen
    ensures PermitsAreHolders(c, Track(c, t, r)) <==> r.id in t.holders || t.b.permits == 0
  {
    if t.b.permits == 0 {
      assert t.holders == {};
    }
  }

  ghost function TrackAll(c: Config, t: Tracked, requests: seq<Request>): Tracked
    requires c.Valid()
    decreases |requests|
  {
    if requests == [] then t else TrackAll(c, Track(c, t, requests[0]), requests[1..])
  }

  ghost predicate AllInTurn(c: Config, t: Tracked, requests: seq<Request>)
    requires c.Valid()
    decreases |requests|
  {
    requests == [] || (InTurn(t, requests[0]) && AllInTurn(c, Track(c, t, requests[0]), requests[1..]))
  }

  lemma InTurnKeepsCount(c: Config, t: Tracked, r: Request)
    requires c.Valid() && PermitsAreHolders(c, t) && InTurn(t, r)
    ensures PermitsAreHolders(c, Track(c, t, r))
  {
    if r.Enter? {
      var asked := Ask(c, t.b, r.now);
      if asked.0.phase == HalfOpen && !asked.1 {
        assert t.b.phase != HalfOpen ==> {} + {r.id} == {r.id};
      }
    } else if t.b.phase == HalfOpen {
      assert |t.holders - {r.id}| == |t.holders| - 1;
    }
  }

  /** If every report of the half-open phase comes from a request that holds a permit, then at
      most `maxPermits` requests are ever out at once, and the counter says how many. */
  lemma {:induction false} HalfOpenLimitHolds(c: Config, t: Tracked, requests: seq<Request>)
    requires c.Valid() && PermitsAreHolders(c, t) && AllInTurn(c, t, requests)
    ensures PermitsAreHolders(c, TrackAll(c, t, requests))
    decreases |requests|
  {
    if requests != [] {
      InTurnKeepsCount(c, t, requests[0]);
      HalfOpenLimitHolds(c, Track(c, t, requests[0]), requests[1..]);
    }
  }

  // ---- When a report is harmless ----

  /** However requests go on, each in turn, no more than the limit are out at once. */
  ghost predicate WithinLimitEver(c: Config, t: Tracked)
    requires c.Valid()
  {
    forall requests: seq<Request> | AllInTurn(c, t, requests) ::
      |TrackAll(c, t, requests).holders| <= c.maxPermits
  }

  /** Only a half-open breaker has holders. */
  ghost predicate HoldersAreHalfOpen(t: Tracked) {
    t.b.phase != HalfOpen ==> t.holders == {}
  }

  lemma {:induction false} HoldersStayHalfOpen(c: Config, t: Tracked, requests: seq<Request>)
    requires c.Valid() && HoldersAreHalfOpen(t)
    ensures HoldersAreHalfOpen(TrackAll(c, t, requests))
    decreases |requests|
  {
    if requests != [] {
      HoldersStayHalfOpen(c, Track(c, t, requests[0]), requests[1..]);
    }
  }

  lemma {:induction false} NewId(ids: set<nat>) returns (id: nat)
    ensures id !in ids && forall i | i in ids :: i < id
    decreases |ids|
  {
    id := 0;
    if ids != {} {
      var some :| some in ids;
      id := NewId(ids - {some});
      id := Max(id, some + 1);
      assert forall i | i in ids :: i == some || i in ids - {some};
    }
  }

  /** When more are out than the counter says, new requests fill it up past the limit. */
  lemma {:induction false} Overfill(c: Config, t: Tracked) returns (requests: seq<Request>)
    requires c.Valid() && t.b.phase == HalfOpen && t.b.permits <= c.maxPermits && |t.holders| > t.b.permits
    ensures AllInTurn(c, t, requests) && |TrackAll(c, t, requests).holders| > c.maxPermits
    decreases c.maxPermits - t.b.permits
  {
    if t.b.permits == c.maxPermits {
      requests := [];
    } else {
      var id := NewId(t.holders);
      var r := Enter(id, 0);
      var after := Track(c, t, r);
      assert after.holders == t.holders + {id} && after.b.permits == t.b.permits + 1;
      var rest := Overfill(c, after);
      requests := [r] + rest;
      assert requests[0] == r && requests[1..] == rest;
    }
  }

  /** A failure, or the success that is still missing. */
  predicate EndsPhase(t: Tracked, r: Request) {
    r.Bad? || (r.Good? && t.b.successes + 1 >= SUCCESS_THRESHOLD)
  }

  /** A report in the half-open phase is harmless, whatever other requests do in turn after it,
      exactly when its reporter holds a permit, no permit is out, or it ends the phase. */
  lemma ReportIsHarmlessExactly(c: Config, t: Tracked, r: Request)
    requires c.Valid() && PermitsAreHolders(c, t) && t.b.phase == HalfOpen && !r.Enter?
    ensures WithinLimitEver(c, Track(c, t, r)) <==> r.id in t.holders || t.b.permits == 0 || EndsPhase(t, r)
  {
    var after := Track(c, t, r);
    assert EndsPhase(t, r) <==> after.b.phase != HalfOpen;
    if r.id in t.holders || t.b.permits == 0 || EndsPhase(t, r) {
      if after.b.phase == HalfOpen {
        ReportKeepsCountExactly(c, t, r);
      }
      forall requests: seq<Request> | AllInTurn(c, after, requests)
        ensures |TrackAll(c, after, requests).holders| <= c.maxPermits
      {
        HalfOpenLimitHolds(c, after, requests);
        HoldersStayHalfOpen(c, after, requests);
      }
    } else {
      assert after.holders == t.holders;
      var requests := Overfill(c, after);
    }
  }

  /** Without that, the limit fails: request 0, admitted before the breaker opened, reports
      late, and the permit of request 1 goes to request 2 while request 1 is still out. */
  lemma LateReportBreaksLimit()
    ensures var c := MakeConfig(1, 10, 1);
            exists requests :: |TrackAll(c, Tracked(FRESH, {}), requests).holders| > c.maxPermits
  {
    var c := MakeConfig(1, 10, 1);
    var t0 := Tracked(FRESH, {});
    var t1 := Tracked(Breaker(Open, 1, 0, 5, 0), {});
    var t2 := Tracked(Breaker(HalfOpen, 1, 0, 5, 1), {1});
    var t3 := Tracked(Breaker(HalfOpen, 1, 1, 5, 0), {1});
    var t4 := Tracked(Breaker(HalfOpen, 1, 1, 5, 1), {1, 2});
    var late := [Enter(2, 20)];
    assert TrackAll(c, t3, late) == t4 by { assert late[1..] == []; }
    var reported := [Good(0)] + late;
    assert TrackAll(c, t2, reported) == t4 by { assert reported[1..] == late; }
    var recovered := [Enter(1, 15)] + reported;
    assert TrackAll(c, t1, recovered) == t4 by {
      assert recovered[1..] == reported;
      assert RecoveryDue(c, t1.b, 15);
      assert Track(c, t1, Enter(1, 15)) == t2;
    }
    var failed := [Bad(9, 5)] + recovered;
    assert TrackAll(c, t0, failed) == t4 by { assert failed[1..] == recovered; }
    var all := [Enter(0, 1)] + failed;
    assert TrackAll(c, t0, all) == t4 by { assert all[1..] == failed; }
    assert |{1, 2}| == 2;
  }
}
