/** How a Modbus client drives its breaker (`src/modbus.rs`): connecting, disconnecting, reading
    all registers, the last possibly cut short by the manager's device timeout. */
module ModbusClient {
  import opened CircuitBreaker

  /** The breaker of every client: three failures, thirty seconds, one half-open permit. */
  const DEVICE: Config := MakeConfig(3, 30_000, 1)

  /** How an attempt to connect ends.  A TCP connect that times out reports nothing. */
  datatype Link = Linked | Refused | TimedOut

  /** What the caller of `is_open` does next.  `outcomes` says of each register whether its
      read succeeded. */
  datatype Read = Read(connected: bool, outcomes: seq<bool>, timedOut: bool, askedAt: nat, endedAt: nat)

  /** The breaker after one read.  A timeout drops the read before it reports, and the manager
      records a failure; without registers there is nothing to wait for. */
  function ReadAll(c: Config, b: Breaker, r: Read): Breaker
    requires c.Valid()
  {
    var (asked, rejected) := Ask(c, b, r.askedAt);
    if rejected || !r.connected || r.outcomes == [] then asked
    else if r.timedOut || true !in r.outcomes then RecordFailure(c, asked, r.endedAt)
    else RecordSuccess(asked)
  }

  /** The breaker after an attempt to connect, which resets it first. */
  function Reconnect(c: Config, link: Link, now: nat): Breaker {
    match link
    case Linked => RecordSuccess(FRESH)
    case Refused => RecordFailure(c, FRESH, now)
    case TimedOut => FRESH
  }

  datatype Client = Client(b: Breaker, connected: bool)

  const NEW: Client := Client(FRESH, false)

  datatype Event =
    | Connect(link: Link, now: nat)
    | Disconnect
    | ReadDevice(outcomes: seq<bool>, timedOut: bool, askedAt: nat, endedAt: nat)
    | IsCircuitOpen(askedAt: nat)

  function Handle(c: Config, client: Client, e: Event): Client
    requires c.Valid()
  {
    match e
    case Connect(link, now) => Client(Reconnect(c, link, now), client.connected || link == Linked)
    case Disconnect => client.(connected := false)
    case ReadDevice(outcomes, timedOut, askedAt, endedAt) =>
      client.(b := ReadAll(c, client.b, Read(client.connected, outcomes, timedOut, askedAt, endedAt)))
    case IsCircuitOpen(askedAt) => client.(b := Ask(c, client.b, askedAt).0)
  }

  class ModbusClient {
    const breaker: CircuitBreaker
    const registers: nat
    var connected: bool

    ghost function State(): Client
      reads this, breaker
    {
      Client(breaker.State(), connected)
    }

    constructor (registers: nat)
      ensures State() == NEW && breaker.config == DEVICE && fresh(breaker)
      ensures this.registers == registers
    {
      breaker := new CircuitBreaker(DEVICE);
      this.registers := registers;
      connected := false;
    }

    method Connect(link: Link, now: nat)
      requires breaker.config.Valid()
      modifies this, breaker
      ensures State() == Handle(breaker.config, old(State()), Event.Connect(link, now))
    {
      breaker.Reset();
      match link
      case Linked =>
        connected := true;
        breaker.Success();
      case Refused =>
        breaker.Failure(now);
      case TimedOut =>
    }

    method Disconnect()
      modifies this
      ensures State() == old(State()).(connected := false)
    {
      connected := false;
    }

    method IsCircuitOpen(now: nat) returns (rejected: bool)
      requires breaker.config.Valid()
      modifies breaker
      ensures State() == Handle(breaker.config, old(State()), Event.IsCircuitOpen(now))
      ensures rejected == Ask(breaker.config, old(State()).b, now).1
    {
      rejected := breaker.IsOpen(now);
    }

    /** Reads every register, returns which were read, and reports to the breaker. */
    method ReadAllRegisters(outcomes: seq<bool>, askedAt: nat, endedAt: nat)
        returns (values: seq<nat>, errors: nat)
      requires breaker.config.Valid() && |outcomes| == registers
      modifies breaker
      ensures State() == Handle(breaker.config, old(State()), ReadDevice(outcomes, false, askedAt, endedAt))
      ensures if Ask(breaker.config, old(State()).b, askedAt).1 || !connected
              then values == [] && errors == 1
              else |values| + errors == registers
                   && (forall i :: i in values <==> 0 <= i < registers && outcomes[i])
    {
      values, errors := [], 0;
      var rejected := breaker.IsOpen(askedAt);
      if rejected || !connected {
        return [], 1;
      }
      var hadFailure, hadSuccess := false, false;
      for i := 0 to registers
        invariant breaker.State() == Ask(breaker.config, old(breaker.State()), askedAt).0
        invariant |values| + errors == i
        invariant forall k :: k in values <==> 0 <= k < i && outcomes[k]
        invariant hadSuccess <==> true in outcomes[..i]
        invariant hadFailure <==> false in outcomes[..i]
      {
        if outcomes[i] {
          values := values + [i];
          hadSuccess := true;
        } else {
          errors := errors + 1;
          hadFailure := true;
        }
      }
      assert outcomes[..registers] == outcomes && (outcomes != [] ==> outcomes[0] in outcomes);
      if hadFailure && !hadSuccess {
        breaker.Failure(endedAt);
      } else if hadSuccess {
        breaker.Success();
      }
    }

    /** The manager's side of the device timeout: the read was dropped after asking. */
    method ReadTimedOut(outcomes: seq<bool>, askedAt: nat, endedAt: nat)
      requires breaker.config.Valid() && |outcomes| == registers
      requires connected && registers > 0
      requires !Ask(breaker.config, breaker.State(), askedAt).1
      modifies breaker
      ensures State() == Handle(breaker.config, old(State()), ReadDevice(outcomes, true, askedAt, endedAt))
    {
      var _ := breaker.IsOpen(askedAt);
      breaker.Failure(endedAt);
    }
  }

  // ---- Permits and recovery ----

  /** A read that finds no permit out leaves none out, exactly unless it was let through half-open
      and then had no device or no register to read. */
  lemma ReadReturnsItsPermitExactly(c: Config, b: Breaker, r: Read)
    requires c.Valid() && b.permits == 0
    ensures var (asked, rejected) := Ask(c, b, r.askedAt);
      ReadAll(c, b, r).permits == 0
      <==> rejected || asked.phase != HalfOpen || (r.connected && r.outcomes != [])
  {
  }

  ghost function Reads(c: Config, b: Breaker, calls: seq<Read>): Breaker
    requires c.Valid()
    decreases |calls|
  {
    if calls == [] then b else Reads(c, ReadAll(c, b, calls[0]), calls[1..])
  }

  ghost predicate AllUsable(calls: seq<Read>) {
    forall r | r in calls :: r.connected && r.outcomes != []
  }

  /** Between the reads of a connected device with registers no permit is out. */
  lemma {:induction false} NoPermitBetweenReads(c: Config, b: Breaker, calls: seq<Read>)
    requires c.Valid() && b.permits == 0 && AllUsable(calls)
    ensures Reads(c, b, calls).permits == 0
    decreases |calls|
  {
    if calls != [] {
      assert calls[0] in calls && forall r | r in calls[1..] :: r in calls;
      ReadReturnsItsPermitExactly(c, b, calls[0]);
      NoPermitBetweenReads(c, ReadAll(c, b, calls[0]), calls[1..]);
    }
  }

  ghost predicate Useful(r: Read) {
    r.connected && !r.timedOut && true in r.outcomes
  }

  /** Whatever came before, two useful reads close a breaker that is open and due. */
  lemma TwoGoodReadsClose(c: Config, b: Breaker, first: Read, second: Read)
    requires c.Valid() && b.phase == Open && RecoveryDue(c, b, first.askedAt)
    requires Useful(first) && Useful(second)
    ensures var after := ReadAll(c, ReadAll(c, b, first), second);
      ReadAll(c, b, first).phase == HalfOpen && after.phase == Closed && after.failures == 0
  {
  }

  // ---- Histories of a client with a fixed list of registers ----

  ghost function After(c: Config, client: Client, events: seq<Event>): Client
    requires c.Valid()
    decreases |events|
  {
    if events == [] then client else After(c, Handle(c, client, events[0]), events[1..])
  }

  ghost predicate Fits(registers: nat, events: seq<Event>) {
    forall e | e in events && e.ReadDevice? :: |e.outcomes| == registers
  }

  ghost predicate NoConnect(events: seq<Event>) {
    forall e | e in events :: !e.Connect?
  }

  lemma {:induction false} AfterBoth(c: Config, client: Client, first: seq<Event>, second: seq<Event>)
    requires c.Valid()
    ensures After(c, After(c, client, first), second) == After(c, client, first + second)
    decreases |first|
  {
    if first == [] {
      assert first + second == second;
    } else {
      assert (first + second)[1..] == first[1..] + second;
      AfterBoth(c, Handle(c, client, first[0]), first[1..], second);
    }
  }

  /** Reads that find nothing, of a device with registers. */
  ghost predicate AllFail(events: seq<Event>) {
    forall e | e in events :: e.ReadDevice? && e.outcomes != [] && true !in e.outcomes
  }

  lemma {:induction false} FailuresAddUp(client: Client, events: seq<Event>)
    requires client.connected && AllFail(events)
    requires (client.b.phase == Closed && client.b.failures < 3) || client.b.phase == Open
    ensures After(DEVICE, client, events).b.phase == Open
            <==> client.b.phase == Open || client.b.failures + |events| >= 3
    decreases |events|
  {
    if events != [] {
      assert events[0] in events && forall e | e in events[1..] :: e in events;
      FailuresAddUp(Handle(DEVICE, client, events[0]), events[1..]);
    }
  }

  /** Whatever came before, a connect begins anew: after it a connected client's breaker is open once
      three reads have failed in a row, or two if the connect was refused. */
  lemma ConnectBeginsAnew(client: Client, link: Link, now: nat, events: seq<Event>)
    requires AllFail(events) && (client.connected || link == Linked)
    ensures After(DEVICE, client, [Connect(link, now)] + events).b.phase == Open
            <==> |events| >= if link == Refused then 2 else 3
  {
    var all := [Connect(link, now)] + events;
    assert all[1..] == events;
    FailuresAddUp(Handle(DEVICE, client, Connect(link, now)), events);
  }

  /** Closed, with at most the one failure that a refused connect records. */
  ghost predicate Untroubled(client: Client) {
    client.b.phase == Closed && client.b.failures <= 1
  }

  /** The breaker of a device without registers never opens: nothing reports but connects, and
      each of them resets it first. */
  lemma {:induction false} NoRegistersNeverOpens(client: Client, events: seq<Event>)
    requires Untroubled(client) && Fits(0, events)
    ensures Untroubled(After(DEVICE, client, events))
    decreases |events|
  {
    if events != [] {
      assert events[0] in events && forall e | e in events[1..] :: e in events;
      NoRegistersNeverOpens(Handle(DEVICE, client, events[0]), events[1..]);
    }
  }

  /** Neither does that of a device that was never reached. */
  lemma {:induction false} NeverLinkedNeverOpens(client: Client, events: seq<Event>)
    requires Untroubled(client) && !client.connected
    requires forall e | e in events && e.Connect? :: e.link != Linked
    ensures Untroubled(After(DEVICE, client, events)) && !After(DEVICE, client, events).connected
    decreases |events|
  {
    if events != [] {
      assert events[0] in events && forall e | e in events[1..] :: e in events;
      NeverLinkedNeverOpens(Handle(DEVICE, client, events[0]), events[1..]);
    }
  }

  // ---- Lost permits ----

  /** Until someone connects again every request is rejected, whatever the device does. */
  ghost predicate Blocked(registers: nat, client: Client) {
    forall events: seq<Event>, now: nat | Fits(registers, events) && NoConnect(events) ::
      Ask(DEVICE, After(DEVICE, client, events).b, now).1
  }

  /** All permits of a half-open phase out with no one to return them, or an opening that the
      clock read as zero. */
  ghost predicate Stuck(b: Breaker) {
    (b.phase == HalfOpen && b.permits >= DEVICE.maxPermits) || (b.phase == Open && b.lastFailure == 0)
  }

  lemma {:induction false} StuckStays(client: Client, events: seq<Event>)
    requires Stuck(client.b) && NoConnect(events)
    ensures After(DEVICE, client, events).b == client.b
    decreases |events|
  {
    if events != [] {
      assert events[0] in events && forall e | e in events[1..] :: e in events;
      StuckStays(Handle(DEVICE, client, events[0]), events[1..]);
    }
  }

  /** Whatever its history, a client is blocked exactly when its breaker is stuck. */
  lemma BlockedIsStuck(registers: nat, client: Client)
    ensures Blocked(registers, client) <==> Stuck(client.b)
  {
    if Stuck(client.b) {
      forall events: seq<Event>, now: nat | Fits(registers, events) && NoConnect(events)
        ensures Ask(DEVICE, After(DEVICE, client, events).b, now).1
      {
        StuckStays(client, events);
      }
    } else {
      assert After(DEVICE, client, []) == client && Fits(registers, []) && NoConnect([]);
      assert !Ask(DEVICE, client.b, client.b.lastFailure + DEVICE.recoveryMs).1;
    }
  }

  /** A blocked client stays so up to the next connect, and that connect, however it ends, lets
      requests through again. */
  lemma BlockedUntilConnectExactly(registers: nat, client: Client, events: seq<Event>, last: Event)
    requires Blocked(registers, client) && Fits(registers, events + [last]) && NoConnect(events)
    ensures Blocked(registers, After(DEVICE, client, events + [last])) <==> !last.Connect?
  {
    var all := events + [last];
    var after := After(DEVICE, client, all);
    assert last in all && forall e | e in events :: e in all;
    if last.Connect? {
      AfterBoth(DEVICE, client, events, [last]);
      assert [last][1..] == [];
      assert After(DEVICE, after, []) == after && !Ask(DEVICE, after.b, 0).1;
      assert Fits(registers, []) && NoConnect([]);
    } else {
      forall more: seq<Event>, now: nat | Fits(registers, more) && NoConnect(more)
        ensures Ask(DEVICE, After(DEVICE, after, more).b, now).1
      {
        AfterBoth(DEVICE, client, all, more);
        assert Fits(registers, all + more) && NoConnect(all + more);
      }
    }
  }

  /** A read that reaches its registers and fails. */
  predicate ReadFails(client: Client, e: Event) {
    e.ReadDevice? && client.connected && e.outcomes != [] && (e.timedOut || true !in e.outcomes)
  }

  /** The event is let through and loses its permit (it finds no connection, or only asks), or
      opens the breaker while the clock reads zero. */
  predicate Blocks(client: Client, e: Event) {
    && (e.ReadDevice? || e.IsCircuitOpen?)
    && var (asked, rejected) := Ask(DEVICE, client.b, e.askedAt);
    && !rejected
    && ((asked.phase == HalfOpen && (e.IsCircuitOpen? || !client.connected))
        || (ReadFails(client, e) && e.endedAt == 0
            && (asked.phase == HalfOpen || client.b.failures + 1 >= DEVICE.threshold)))
  }

  /** After every history of a client one more event leaves it blocked exactly when it is no
      connect, and the client was blocked already or this event blocks it. */
  lemma BlockedExactly(registers: nat, history: seq<Event>, e: Event)
    requires Fits(registers, history) && Fits(registers, [e])
    ensures var client := After(DEVICE, NEW, history);
      Blocked(registers, After(DEVICE, NEW, history + [e]))
      <==> !e.Connect? && (Blocked(registers, client) || Blocks(client, e))
  {
    var client := After(DEVICE, NEW, history);
    AfterBoth(DEVICE, NEW, history, [e]);
    assert e in [e] && [e][1..] == [];
    if registers == 0 {
      NoRegistersNeverOpens(NEW, history);
    }
    BlockedIsStuck(registers, client);
    BlockedIsStuck(registers, Handle(DEVICE, client, e));
    StuckExactly(client, e);
  }

  lemma StuckExactly(client: Client, e: Event)
    requires e.ReadDevice? && e.outcomes == [] ==> client.b.phase == Closed
    ensures Stuck(Handle(DEVICE, client, e).b) <==> !e.Connect? && (Stuck(client.b) || Blocks(client, e))
  {
  }

  // ---- Runs in which it happens ----

  function Failing(at: nat): Event {
    ReadDevice([false], false, at, at)
  }

  /** A device is connected and fails three reads at the given times. */
  lemma FailsAndOpens(t: nat, u: nat, v: nat) returns (history: seq<Event>)
    ensures Fits(1, history)
    ensures After(DEVICE, NEW, history) == Client(Breaker(Open, 3, 0, v, 0), true)
  {
    var h3 := [Failing(v)];
    var h2 := [Failing(u)] + h3;
    var h1 := [Failing(t)] + h2;
    history := [Connect(Linked, t)] + h1;
    assert h3[1..] == [] && h2[1..] == h3 && h1[1..] == h2 && history[1..] == h1;
    var b := Breaker(Closed, 0, 0, 0, 0);
    assert Handle(DEVICE, NEW, Connect(Linked, t)) == Client(b, true);
    assert Handle(DEVICE, Client(b, true), Failing(t)) == Client(b.(failures := 1), true);
    assert Handle(DEVICE, Client(b.(failures := 1), true), Failing(u)) == Client(b.(failures := 2), true);
    assert Handle(DEVICE, Client(b.(failures := 2), true), Failing(v)) == Client(Breaker(Open, 3, 0, v, 0), true);
    assert After(DEVICE, Client(b.(failures := 2), true), h3) == Client(Breaker(Open, 3, 0, v, 0), true);
    assert After(DEVICE, Client(b.(failures := 1), true), h2) == Client(Breaker(Open, 3, 0, v, 0), true);
  }

  /** The same, and disconnected. */
  lemma FailsAndDisconnects(t: nat, u: nat, v: nat) returns (history: seq<Event>)
    ensures Fits(1, history)
    ensures After(DEVICE, NEW, history) == Client(Breaker(Open, 3, 0, v, 0), false)
  {
    var h := FailsAndOpens(t, u, v);
    AfterBoth(DEVICE, NEW, h, [Disconnect]);
    history := h + [Disconnect];
    assert [Disconnect][1..] == [];
  }

  /** Then one read after the recovery time is let through, finds no connection and keeps its
      permit: the client is blocked. */
  lemma DisconnectedReadBlocks() returns (history: seq<Event>)
    ensures Fits(1, history)
    ensures var before := After(DEVICE, NEW, history);
      && !Ask(DEVICE, before.b, 30_003).1
      && Blocked(1, Handle(DEVICE, before, ReadDevice([true], false, 30_003, 30_003)))
  {
    history := FailsAndDisconnects(1, 2, 3);
    BlockedIsStuck(1, Handle(DEVICE, After(DEVICE, NEW, history), ReadDevice([true], false, 30_003, 30_003)));
  }

  /** A connected, healthy device can be blocked: it recovers with one good read, and then someone
      only asks whether the circuit is open. */
  lemma QuestionBlocks() returns (history: seq<Event>)
    ensures Fits(1, history)
    ensures var before := After(DEVICE, NEW, history);
      && before.connected && before.b.phase == HalfOpen && before.b.permits == 0 && before.b.successes == 1
      && !Ask(DEVICE, before.b, 40_000).1
      && Blocked(1, Handle(DEVICE, before, IsCircuitOpen(40_000)))
  {
    var good := ReadDevice([true], false, 30_003, 30_003);
    var failed := Client(Breaker(Open, 3, 0, 3, 0), true);
    var half := Client(Breaker(HalfOpen, 3, 1, 3, 0), true);
    var h := FailsAndOpens(1, 2, 3);
    AfterBoth(DEVICE, NEW, h, [good]);
    history := h + [good];
    assert [good][1..] == [];
    assert true in good.outcomes && Handle(DEVICE, failed, good) == half;
    BlockedIsStuck(1, Handle(DEVICE, half, IsCircuitOpen(40_000)));
  }

  /** With the same failures while the clock reads zero, the breaker never lets a request through. */
  lemma OpenedAtZeroBlocks() returns (history: seq<Event>)
    ensures Fits(1, history) && Blocked(1, After(DEVICE, NEW, history))
  {
    history := FailsAndOpens(0, 0, 0);
    BlockedIsStuck(1, After(DEVICE, NEW, history));
  }
}
