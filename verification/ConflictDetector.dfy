/** Priority-aware conflict detection for hardware writes (`src/scripting/conflict.rs`).
    The three tables follow one rule, `Decide`; a write that is let through or is a duplicate
    counts as done, as a permitted write is taken to succeed. */
module ConflictDetector {
  import opened Wrappers

  datatype WriteValue = Bool(b: bool) | U16(w: nat)

  datatype Target =
    | Gpio(pin: nat)
    | Register(device: string, address: nat)
    | Coil(device: string, address: nat)

  datatype PendingWrite = PendingWrite(scriptId: string, priority: nat, value: WriteValue)

  datatype Decision = NoConflict | ConflictWon | ConflictLost | Duplicate

  datatype Request = Request(target: Target, write: PendingWrite)

  /** What a new write meets, and what is recorded afterwards. */
  function Decide(existing: Option<PendingWrite>, w: PendingWrite): (PendingWrite, Decision) {
    match existing
    case None => (w, NoConflict)
    case Some(e) =>
      if e.scriptId == w.scriptId then (w, NoConflict)
      else if e.value == w.value then (e, Duplicate)
      else if w.priority >= e.priority then (w, ConflictWon)
      else (e, ConflictLost)
  }

  function Lookup(pending: map<Target, PendingWrite>, t: Target): Option<PendingWrite> {
    if t in pending then Some(pending[t]) else None
  }

  function Check(pending: map<Target, PendingWrite>, r: Request): (map<Target, PendingWrite>, Decision) {
    var (recorded, decision) := Decide(Lookup(pending, r.target), r.write);
    (pending[r.target := recorded], decision)
  }

  class ConflictDetector {
    var gpioWrites: map<nat, PendingWrite>
    var modbusWrites: map<(string, nat), PendingWrite>
    var coilWrites: map<(string, nat), PendingWrite>

    /** What is recorded for a target. */
    ghost function Recorded(t: Target): Option<PendingWrite>
      reads this
    {
      match t
      case Gpio(pin) => if pin in gpioWrites then Some(gpioWrites[pin]) else None
      case Register(device, address) =>
        if (device, address) in modbusWrites then Some(modbusWrites[(device, address)]) else None
      case Coil(device, address) =>
        if (device, address) in coilWrites then Some(coilWrites[(device, address)]) else None
    }

    constructor ()
      ensures forall t :: Recorded(t) == None
    {
      gpioWrites, modbusWrites, coilWrites := map[], map[], map[];
    }

    method Reset()
      modifies this
      ensures forall t :: Recorded(t) == None
    {
      gpioWrites, modbusWrites, coilWrites := map[], map[], map[];
    }

    method CheckGpioWrite(scriptId: string, priority: nat, pin: nat, value: bool) returns (d: Decision)
      modifies this
      ensures var (recorded, decision) :=
                Decide(old(Recorded(Gpio(pin))), PendingWrite(scriptId, priority, Bool(value)));
              d == decision && Recorded(Gpio(pin)) == Some(recorded)
      ensures forall t | t != Gpio(pin) :: Recorded(t) == old(Recorded(t))
    {
      var w := PendingWrite(scriptId, priority, Bool(value));
      if pin in gpioWrites {
        var existing := gpioWrites[pin];
        if existing.scriptId == scriptId {
          gpioWrites := gpioWrites[pin := w];
          return NoConflict;
        }
        if existing.value == Bool(value) {
          return Duplicate;
        }
        if priority < existing.priority {
          return ConflictLost;
        }
        gpioWrites := gpioWrites[pin := w];
        return ConflictWon;
      }
      gpioWrites := gpioWrites[pin := w];
      d := NoConflict;
    }

    method CheckModbusWrite(scriptId: string, priority: nat, device: string, address: nat, value: nat)
        returns (d: Decision)
      modifies this
      ensures var (recorded, decision) :=
                Decide(old(Recorded(Register(device, address))), PendingWrite(scriptId, priority, U16(value)));
              d == decision && Recorded(Register(device, address)) == Some(recorded)
      ensures forall t | t != Register(device, address) :: Recorded(t) == old(Recorded(t))
    {
      var key := (device, address);
      var w := PendingWrite(scriptId, priority, U16(value));
      if key in modbusWrites {
        var existing := modbusWrites[key];
        if existing.scriptId == scriptId {
          modbusWrites := modbusWrites[key := w];
          return NoConflict;
        }
        if existing.value == U16(value) {
          return Duplicate;
        }
        if priority < existing.priority {
          return ConflictLost;
        }
        modbusWrites := modbusWrites[key := w];
        return ConflictWon;
      }
      modbusWrites := modbusWrites[key := w];
      d := NoConflict;
    }

    method CheckCoilWrite(scriptId: string, priority: nat, device: string, address: nat, value: bool)
        returns (d: Decision)
      modifies this
      ensures var (recorded, decision) :=
                Decide(old(Recorded(Coil(device, address))), PendingWrite(scriptId, priority, Bool(value)));
              d == decision && Recorded(Coil(device, address)) == Some(recorded)
      ensures forall t | t != Coil(device, address) :: Recorded(t) == old(Recorded(t))
    {
      var key := (device, address);
      var w := PendingWrite(scriptId, priority, Bool(value));
      if key in coilWrites {
        var existing := coilWrites[key];
        if existing.scriptId == scriptId {
          coilWrites := coilWrites[key := w];
          return NoConflict;
        }
        if existing.value == Bool(value) {
          return Duplicate;
        }
        if priority < existing.priority {
          return ConflictLost;
        }
        coilWrites := coilWrites[key := w];
        return ConflictWon;
      }
      coilWrites := coilWrites[key := w];
      d := NoConflict;
    }
  }

  // ---- Runs of writes between two resets ----

  ghost function Run(pending: map<Target, PendingWrite>, requests: seq<Request>): map<Target, PendingWrite>
  {
    if requests == [] then pending
    else Check(Run(pending, requests[..|requests| - 1]), requests[|requests| - 1]).0
  }

  /** The value in the hardware: the last one let through.  A duplicate is not written. */
  ghost function Driven(requests: seq<Request>, t: Target): Option<WriteValue> {
    if requests == [] then None
    else
      var earlier, last := requests[..|requests| - 1], requests[|requests| - 1];
      var decision := Check(Run(map[], earlier), last).1;
      if last.target == t && (decision == NoConflict || decision == ConflictWon)
      then Some(last.write.value)
      else Driven(earlier, t)
  }

  /** Every script has one priority. */
  ghost predicate FixedPriorities(requests: seq<Request>) {
    forall i, j | 0 <= i < j < |requests| && requests[i].write.scriptId == requests[j].write.scriptId ::
      requests[i].write.priority == requests[j].write.priority
  }

  /** What is recorded is one of the writes asked for, and its value is the one driven, so that
      not writing a duplicate leaves the target as writing it would. */
  lemma {:induction false} RecordedIsDriven(requests: seq<Request>, t: Target)
    ensures var recorded := Lookup(Run(map[], requests), t);
      && (recorded.Some? ==> Request(t, recorded.value) in requests)
      && Driven(requests, t) == (if recorded.Some? then Some(recorded.value.value) else None)
  {
    if requests != [] {
      var earlier := requests[..|requests| - 1];
      RecordedIsDriven(earlier, t);
      assert forall r | r in earlier :: r in requests;
      assert requests[|requests| - 1] in requests;
    }
  }

  /** The recorded priority of a target never falls. */
  lemma {:induction false} PriorityNeverFalls(requests: seq<Request>, k: nat, t: Target)
    requires k <= |requests| && FixedPriorities(requests)
    requires t in Run(map[], requests[..k])
    ensures t in Run(map[], requests)
    ensures Run(map[], requests)[t].priority >= Run(map[], requests[..k])[t].priority
    decreases |requests|
  {
    if k == |requests| {
      assert requests[..k] == requests;
    } else {
      var earlier, last := requests[..|requests| - 1], requests[|requests| - 1];
      assert earlier[..k] == requests[..k];
      PriorityNeverFalls(earlier, k, t);
      RecordedIsDriven(earlier, t);
      var e := Run(map[], earlier)[t];
      var i :| 0 <= i < |earlier| && earlier[i] == Request(t, e);
      assert requests[i] == earlier[i];
    }
  }

  // ---- Who wins ----

  ghost predicate Descending(requests: seq<Request>) {
    forall i, j | 0 <= i < j < |requests| :: requests[i].write.priority >= requests[j].write.priority
  }

  /** The last write to `t` by a writer of the highest priority that wrote to it. */
  ghost function LastOfHighest(requests: seq<Request>, t: Target): Option<PendingWrite> {
    if requests == [] then None
    else
      var last := requests[|requests| - 1];
      var best := LastOfHighest(requests[..|requests| - 1], t);
      if last.target == t && (best == None || last.write.priority >= best.value.priority)
      then Some(last.write) else best
  }

  /** The `i`-th request writes `w` to the target, and no write to the target beats it or ties
      with it later. */
  ghost predicate IsLastOfHighest(requests: seq<Request>, t: Target, w: PendingWrite, i: nat) {
    && i < |requests|
    && requests[i] == Request(t, w)
    && forall j | 0 <= j < |requests| && requests[j].target == t ::
         requests[j].write.priority < w.priority
         || (j <= i && requests[j].write.priority == w.priority)
  }

  lemma {:induction false} LastOfHighestIs(requests: seq<Request>, t: Target)
    ensures var best := LastOfHighest(requests, t);
      && (best.None? ==> forall r | r in requests :: r.target != t)
      && (best.Some? ==> exists i :: IsLastOfHighest(requests, t, best.value, i))
  {
    if requests != [] {
      var earlier, last := requests[..|requests| - 1], requests[|requests| - 1];
      LastOfHighestIs(earlier, t);
      var best := LastOfHighest(requests, t);
      if best.Some? {
        if best == Some(last.write) && last.target == t {
          assert IsLastOfHighest(requests, t, best.value, |earlier|);
        } else {
          var i :| IsLastOfHighest(earlier, t, best.value, i);
          assert IsLastOfHighest(requests, t, best.value, i);
        }
      }
    }
  }

  /** When writes come in descending priority, as from scripts sorted by priority that call no
      others, each target ends with the last value its highest-priority writer gave it. */
  lemma {:induction false} HighestPriorityWins(requests: seq<Request>, t: Target)
    requires FixedPriorities(requests) && Descending(requests)
    ensures var recorded, best := Lookup(Run(map[], requests), t), LastOfHighest(requests, t);
      recorded.Some? == best.Some? && (best.Some? ==>
        recorded.value.value == best.value.value && recorded.value.priority == best.value.priority)
    ensures Driven(requests, t)
            == (if LastOfHighest(requests, t).Some? then Some(LastOfHighest(requests, t).value.value) else None)
  {
    RecordedIsDriven(requests, t);
    if requests != [] {
      var earlier, last := requests[..|requests| - 1], requests[|requests| - 1];
      HighestPriorityWins(earlier, t);
      RecordedIsDriven(earlier, t);
      var e := Lookup(Run(map[], earlier), t);
      if e.Some? && last.target == t {
        var i :| 0 <= i < |earlier| && earlier[i] == Request(t, e.value);
        assert requests[i] == earlier[i];
        assert last.write.priority <= e.value.priority;
      }
    }
  }

  // ---- Where it fails ----

  /** Writes that may follow `w` to the same target: all of lower priority, and each script
      with one priority throughout. */
  ghost predicate LowerWrites(e: Option<PendingWrite>, w: PendingWrite, later: seq<PendingWrite>) {
    && (forall l | l in later :: l.priority < w.priority && l.scriptId != w.scriptId)
    && (forall l | l in later && e.Some? && l.scriptId == e.value.scriptId :: l.priority == e.value.priority)
    && (forall l, m | l in later && m in later && l.scriptId == m.scriptId :: l.priority == m.priority)
  }

  ghost function Settle(recorded: PendingWrite, later: seq<PendingWrite>): PendingWrite {
    if later == [] then recorded
    else Decide(Some(Settle(recorded, later[..|later| - 1])), later[|later| - 1]).0
  }

  /** The value of `w` is safe from every later writer of lower priority. */
  ghost predicate Safe(e: Option<PendingWrite>, w: PendingWrite) {
    forall later: seq<PendingWrite> | LowerWrites(e, w, later) ::
      Settle(Decide(e, w).0, later).value == w.value
  }

  lemma {:induction false} HoldsAgainstLower(recorded: PendingWrite, w: PendingWrite, later: seq<PendingWrite>)
    requires recorded.value == w.value && recorded.priority >= w.priority
    requires forall l | l in later :: l.priority < w.priority && l.scriptId != recorded.scriptId
    ensures Settle(recorded, later).value == w.value
    ensures Settle(recorded, later) == recorded
  {
    if later != [] {
      var earlier := later[..|later| - 1];
      assert forall l | l in earlier :: l in later;
      assert later[|later| - 1] in later;
      HoldsAgainstLower(recorded, w, earlier);
    }
  }

  /** The write meets no record of another script, or one with another value that it may override,
      or one with its own value that is at least as strong. */
  predicate MeetsNoTrap(e: Option<PendingWrite>, w: PendingWrite) {
    || e.None?
    || e.value.scriptId == w.scriptId
    || (e.value.value != w.value && e.value.priority <= w.priority)
    || (e.value.value == w.value && e.value.priority >= w.priority)
  }

  /** The value of a write is safe from writers of lower priority exactly when that holds of what
      is recorded before it: it fails for a write that is outranked, and for one that finds its
      own value recorded by a script of lower priority. */
  lemma SafeUnlessDuplicateOfLower(e: Option<PendingWrite>, w: PendingWrite)
    ensures Safe(e, w) <==> MeetsNoTrap(e, w)
  {
    var recorded := Decide(e, w).0;
    if MeetsNoTrap(e, w) {
      forall later: seq<PendingWrite> | LowerWrites(e, w, later)
        ensures Settle(recorded, later).value == w.value
      {
        HoldsAgainstLower(recorded, w, later);
      }
    } else if e.value.value != w.value {
      assert LowerWrites(e, w, []);
      assert Settle(recorded, []).value != w.value;
    } else {
      var other := if w.value == Bool(true) then Bool(false) else Bool(true);
      var later := [PendingWrite(e.value.scriptId, e.value.priority, other)];
      assert later[..0] == [];
      assert LowerWrites(e, w, later);
      assert Settle(recorded, later).value == other;
    }
  }

  function LowHighLow(t: Target, v: WriteValue, other: WriteValue): seq<Request> {
    [Request(t, PendingWrite("low", 0, v)),
     Request(t, PendingWrite("high", 255, v)),
     Request(t, PendingWrite("low", 0, other))]
  }

  /** A run from an empty detector in which it happens: "low" writes a value, "high" asks for the
      same, and "low" changes its mind. */
  lemma DuplicateLosesToLower(t: Target, v: WriteValue, other: WriteValue)
    requires v != other
    ensures var requests := LowHighLow(t, v, other);
      FixedPriorities(requests) && Driven(requests, t) == Some(other)
  {
    var all := LowHighLow(t, v, other);
    assert all[..2] == [all[0], all[1]] && all[..2][..1] == [all[0]] && all[..1][..0] == [];
    assert all[..1] == [all[0]];
    assert Run(map[], all[..1]) == map[t := all[0].write];
    assert Run(map[], all[..2]) == map[t := all[0].write];
  }
}
