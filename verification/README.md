# The control kernel of the Suderra edge agent

A Dafny model of the part of the agent that decides things: the IEC 61131-3 scan cycle with its
function blocks, triggers and the bounded script engine with its conflict detector, the circuit
breaker and token bucket that guard devices, the offline message queue, and the limiters in front
of commands and scripts. Drivers, network and storage are arguments: a clock sample, whether a
hardware write succeeded, what a register read returned, how large the database file is.

`dafny verify dfyconfig.toml` checks the project.

## How it is laid out

Where the source updates fields, the model has a class with those fields and methods that loop and
assign as the source does. Each method is proved against a function of the old state, and the
theorems are about that function. The two lock-free primitives are modelled twice: as objects whose
calls are atomic, and as atomic operations interleaved by any number of threads, with a lemma that a
call left alone, in a run of any number of threads, does exactly what the atomic object does.

| files | what they model |
|---|---|
| `Wiring`, `ScanCycle`, `Synchronous`, `ScanEngine` | the block phases of a scan, and that they are one synchronous step |
| `BlockHistories`, `Cascade` | what each block shows after any history of its inputs, and where it arrives in runs of scans |
| `FunctionBlocks`, `Timers`, `Counters`, `EdgeTriggers`, `BlockState`, `FBRegistry` | the eight blocks, their saved state and their registry |
| `ScriptContext` | what scripts, triggers and wires read, and how values compare |
| `Triggers`, `Cron` | when scripts are triggered |
| `ScriptEngine`, `ScriptRunner`, `ScriptOutcomes`, `ScriptBounds`, `ActionLimit`, `ScriptIdentity`, `ScriptCycle` | script execution: the functions, the object, and five families of theorems |
| `ConflictDetector` | which of several writes to one target wins |
| `CircuitBreaker`, `CircuitBreakerThreads`, `ModbusClient` | the breaker, alone, under threads, and as the Modbus client drives it |
| `TokenBucket`, `TokenBucketThreads` | the device rate limiter, alone and under threads |
| `OfflineQueue` | the priority queue for messages the broker cannot take |
| `SlidingWindow`, `ScriptRateLimiter` | the limiters of remote commands and of scripts |

## Where the code does less than its documentation says

The model follows the code. Each point names a lemma with a concrete run or input that shows it, and
the lemma that says exactly when the promise does hold.

- **Scan order.** The registry and the wiring are hash maps. A scan is deterministic exactly when no
  input field is fed two different values and no place in the context is sent two
  (`Synchronous.SynchronousExactly`). Names such as `CLK` and `IN` of one trigger mean the same field
  (`Synchronous.TwoNamesOfOneInput`).
- **Order of equal priorities.** The active scripts are found in the order of a hash map. The order in
  which they run is the same whatever that order exactly when no two of them have one priority
  (`ScriptCycle.MapOrderIsHiddenExactly`).
- **Sensors as block inputs.** A sensor reading is always a fraction, and no input of any block takes
  one, whatever the reading (`FunctionBlocks.NoInputTakesReals`).
- **Timer restore.** A wall-clock timer saved while running with ET at zero is not started again: TON
  never fires, TOF and TP never end (`Timers.RestoredTimersStick`; exactly then, by
  `Timers.TonFiresOnTimeExactly`, `TofEndsOnTimeExactly` and `TpEndsOnTimeExactly`).
- **TOF's ET** is the preset only on the scan that ends the delay and falls to zero on the next, where
  section 6.6.3.5 of IEC 61131-3:2013 keeps it (`Timers.TofElapsedFalls`; its closed form is
  `Timers.TofMeasuresOffTime`).
- **Comparisons.** `between` and `in` never hold, since the right side is asked for as a number before
  it is looked at as a list (`ScriptContext.ListOperatorsNeverHold`). For values of different kinds
  neither "equal" nor "not equal" holds (`ScriptContext.NeDeniesEqExactly`), and a condition does not
  order strings although a threshold trigger does (`ScriptContext.ComparisonsAgreeExactly`).
- **Retained variables** are set under a name with a colon, and no source of a condition reads such a
  name (`ScriptEngine.RetainedIsUnread`; `ScriptContext.ColonIsUnread`, and
  `ScriptContext.VariableIsRead` for all others).
- **Debounce.** A threshold crossed within the debounce time of a firing, or at the first check after
  it, is lost for good, not delayed (`Triggers.AnEdgeIsLost`; `Triggers.EdgeFiresExactly` and
  `Triggers.LostEdgeNeverFires`).
- **Action limit.** An action whose time runs out between the two looks at the clock runs without
  being counted (`ScriptBounds.UncountedActionRuns`). A frame keeps to its limit under every clock
  exactly when its list is no longer than the limit (`ActionLimit.ActionLimitHoldsExactly`).
- **Identity of writes.** A called script that is skipped leaves its name and priority in force, and
  the caller's next writes are made with them (`ScriptIdentity.SkippedCalleeLendsItsPriority`, and
  `ScriptIdentity.EverySuchSetupLeaks` for every script that begins with a call and a write;
  `ScriptIdentity.IdentityKeptExactly`). No write of any execution is misfiled when no script that is
  called has conditions (`ScriptIdentity.FreeCallsFileUnderOwnName`).
- **Duplicates.** A high-priority write that finds its value already recorded by a script of lower
  priority does not raise the recorded priority, and can be overridden
  (`ConflictDetector.DuplicateLosesToLower`; `ConflictDetector.SafeUnlessDuplicateOfLower`).
- **Half-open limit.** It fails when a request admitted before the breaker opened reports late
  (`CircuitBreaker.LateReportBreaksLimit`; a report is harmless exactly as
  `CircuitBreaker.ReportIsHarmlessExactly` says), and when a thread is overtaken between swapping to
  half-open and storing zero permits (`CircuitBreakerThreads.OvertakenTransitionOvergrants`, for every
  limit). Threads that ask again only after reporting keep to the limit in every interleaving exactly
  when there are no more threads than permits (`CircuitBreakerThreads.HalfOpenLimitHoldsExactly`).
- **Lost permits.** `is_open` takes a permit. A half-open breaker of a Modbus client, and an open one
  that is due, lose it to a read that finds no connection and to `is_circuit_open`, be the device
  healthy or not: every request is rejected until the next connect, which resets the breaker
  (`ModbusClient.DisconnectedReadBlocks` and `ModbusClient.QuestionBlocks`;
  `ModbusClient.BlockedExactly` and `ModbusClient.BlockedUntilConnectExactly`). A client without
  registers never gets there, as its breaker never opens (`ModbusClient.NoRegistersNeverOpens`).
- **Opening at clock zero.** A failure time of zero is taken for none, and the breaker does not recover
  by itself (`ModbusClient.OpenedAtZeroBlocks`; `CircuitBreaker.RecoversUnlessOpenedAtZero`).
- **Token refill.** The refill loads and then stores the tokens, and can bring back tokens that
  another thread took in between (`TokenBucketThreads.DisturbedStoreOvergrants`, for every bucket that
  one refill does not fill). All threads together keep to the rate in every interleaving exactly when
  there is at most one, or one refill fills the bucket (`TokenBucketThreads.RateHoldsExactly`).
- **Sub-millisecond intervals**, such as 500 nanoseconds, pass the constructor's check and divide by
  zero later (`TokenBucket.AcceptedIntervalMayBeUnusable`).
- **Script rate.** The 32-bit call counter of a window wraps, and grants start again after 2^32 calls
  (`ScriptRateLimiter.WrappedWindowOvergrants`; `ScriptRateLimiter.WindowKeepsLimitExactly`). Any minute
  can hold up to twice the limit less one (`ScriptRateLimiter.AnyMinuteBoundIsReached`).
- **Queue size.** A limit of zero keeps one message, as a limit of one does
  (`OfflineQueue.ZeroKeepsTheNewest`). A table opened again with a smaller limit loses one row for each
  one it takes and never comes down to it (`OfflineQueue.ReopenedStaysOver`): it is within its limit
  after every enqueue exactly when it was when opened (`OfflineQueue.LimitHoldsExactly`).

## Model

| member | source | states |
|---|---|---|
| Synchronous.SynchronousExactly | src/scripting/engine.rs:628-643 | a scan (wire inputs, execute all, wire outputs) gives the same registry and context for all orders of the maps if and only if no field is fed two values and no place is sent two; then it is the synchronous step |
| Synchronous.EveryInputTakesItsSource | src/scripting/engine.rs:705-735 | after an agreed step each fed field holds its source's value from before the step (a block source, even itself: last cycle's output), each other field what it held |
| Synchronous.ApartAlwaysAgrees | src/scripting/engine.rs:691-777 | if no two input names of a block mean one field and output targets are distinct, every scan agrees, whatever the values, and the wiring stays so |
| Synchronous.RunIsSynchronous | src/scripting/engine.rs:625-686 | a run of any length, with any readings and variables set between scans and a different order in each scan, is the run of synchronous steps if the wiring agrees in each |
| Synchronous.ReadingsArrive | src/scripting/engine.rs:630-634 | between scans a new reading replaces the old one and everything not read stays |
| Synchronous.ApartRunsAreSynchronous | src/scripting/engine.rs:625-686 | wired apart, every run of any length is the run of synchronous steps |
| Synchronous.TwoNamesOfOneInput | src/scripting/function_blocks/edge_triggers.rs:86-97 | an R_TRIG wired by two names of its one input: the scan depends on the order of the map |
| ScanCycle.WireInputsLatch | src/scripting/engine.rs:691-737 | wiring in any order is latching the last delivery to each field, all deliveries computed from the blocks before the phase: no wire sees what an earlier one did |
| ScanCycle.WireOutputsStore | src/scripting/engine.rs:741-777 | after the output phase each place holds what was sent to it last and all others what they held |
| ScanCycle.AgreedInputsAnyOrder | src/scripting/engine.rs:691-737 | if the deliveries agree, the input phase is the simultaneous one in any order |
| ScanCycle.AgreedOutputsAnyOrder | src/scripting/engine.rs:741-777 | if the emissions agree, the output phase is the simultaneous one in any order |
| ScanCycle.AnyOrderExecutesAll | src/scripting/fb_registry.rs:194-199 | executing the blocks once each, in any order, each with its own clock sample, is executing all at once |
| Wiring.PlanCovers | src/scripting/engine.rs:692-704 | every order of the two nested loops goes over exactly the same wires |
| Wiring.PlanEndingWith | src/scripting/engine.rs:692-704 | any wire is the last one in some order of the two nested loops |
| Wiring.CollectIsJoined | src/scripting/engine.rs:732-734 | values set in turn, if they agree, leave in any order what setting them at once leaves |
| ScanEngine.Engine.WireFbInputs | src/scripting/engine.rs:691-737 | the loops, over any order of the maps, leave the registry as the fold over that order does |
| ScanEngine.Engine.WireFbOutputs | src/scripting/engine.rs:741-777 | the loops, over any order of the maps, leave the context as the fold over that order does |
| ScanEngine.Engine.ScanBlocks | src/scripting/engine.rs:636-643 | phases 2 to 4 are the scan in the orders that came up, and the synchronous step whenever the wiring agrees |
| BlockHistories.BlocksShow | src/scripting/fb_registry.rs:113-151 | a block made by the name of its type, in capitals or not, shows after every history of values given to its inputs by name, under every name of every output, what its type promises over that history: on- and off-delay, pulse, counts, edges, presets that change included |
| BlockHistories.ScanTonShows | src/scripting/function_blocks/timers.rs:213-260 | so does a TON set to count scans, by the number of scans its input has been on |
| BlockHistories.OthersAreUnknown | src/scripting/fb_registry.rs:113-151 | no other type name makes a block |
| Cascade.ScanIsTurn | src/scripting/engine.rs:636-643 | in a scan, in whatever orders, each block is executed once on the values that its own wires bring, all read before the scan |
| Cascade.RunIsTurns | src/scripting/engine.rs:625-686 | after any run each block is what its own turns make of it |
| Cascade.InputTakesItsSource | src/scripting/engine.rs:705-735 | after a scan an input wired to a sensor, pin, variable, block or literal holds the truth value or the preset that its source held before the scan |
| Cascade.OutputReachesItsPlace | src/scripting/engine.rs:752-773 | after a scan a variable wired to an output holds it, and a sensor the number it makes, one for true and zero for false |
| Cascade.ShownReachesInput | src/scripting/engine.rs:705-735 | in a run from new blocks an input wired to another block's output holds after each scan what the type of that block promises for its turns up to the scan before |
| Cascade.ShownReachesContext | src/scripting/engine.rs:752-773 | in a run from new blocks a variable or sensor wired to an output holds after each scan what the block's type promises for its turns, that scan's included |
| FBRegistry.FBRegistry.CreateFb | src/scripting/fb_registry.rs:91-110 | a taken id or an unknown type is an error and changes nothing; otherwise the new block, restored from its saved row if there is one, and its definition are added, and blocks and definitions keep the same ids |
| FBRegistry.FBRegistry.RemoveFb | src/scripting/fb_registry.rs:153-161 | the block, its definition and its saved row go, and the answer says whether it was there |
| FBRegistry.FBRegistry.ExecuteAllBlocks | src/scripting/fb_registry.rs:194-199 | the loop over the map, in whatever order, executes every block exactly once |
| FBRegistry.FBRegistry.SetInput | src/scripting/fb_registry.rs:202-207 | only that block changes, by its own input rule |
| FBRegistry.FBRegistry.SaveAllStates | src/scripting/fb_registry.rs:218-245 | every block's row is replaced by its state, rows of other blocks stay, without a backend nothing happens |
| FBRegistry.FBRegistry.LoadAllStates | src/scripting/fb_registry.rs:248-277 | exactly the blocks with a row take it over |
| FBRegistry.CreatedAgain | src/scripting/fb_registry.rs:100-107 | a block saved and created again from its definition after a restart is the block with its start, if it is a timer, worked out anew, whatever else is in the store |
| BlockState.RoundTrip | src/scripting/function_blocks/timers.rs:262-317 | restoring the saved fields, name by name, into a new block of the kind gives back every field of any of the eight blocks but the start of a timer |
| BlockState.ForeignFieldsAreLeft | src/scripting/function_blocks/timers.rs:275-317 | an object whose values have no type or range that the block takes, or an empty one, changes nothing but the start of a timer |
| BlockState.RestartIsInvisible | src/scripting/function_blocks/counters.rs:142-176 | a counter, an edge trigger or a TON held counting scans shows the same outputs after a restart on every future input sequence |
| FunctionBlocks.LatchOneMore | src/scripting/function_blocks/timers.rs:221-260 | one more input on top of inputs already set is those inputs with that one replaced |
| FunctionBlocks.LatchedReads | src/scripting/function_blocks/timers.rs:221-260 | a field that is set holds its setting, and setting it touches no other input |
| FunctionBlocks.LatchKeepsOutputs | src/scripting/function_blocks/mod.rs:33-37 | setting inputs changes no output of any block |
| FunctionBlocks.ExecuteKeepsInputs | src/scripting/function_blocks/mod.rs:30-37 | executing changes no input of any block |
| FunctionBlocks.NoInputTakesReals | src/scripting/engine.rs:711-712 | a sensor reading is accepted by no input of any block |
| EdgeTriggers.RTrig.Execute | src/scripting/function_blocks/edge_triggers.rs:73-77 | one scan of R_TRIG |
| EdgeTriggers.FTrig.Execute | src/scripting/function_blocks/edge_triggers.rs:198-202 | one scan of F_TRIG |
| EdgeTriggers.FiresOnEdges | src/scripting/function_blocks/edge_triggers.rs:73-77 | over every history R_TRIG fires on exactly the scans with a rising edge, F_TRIG with a falling one |
| EdgeTriggers.FiringsAlternate | src/scripting/function_blocks/edge_triggers.rs:198-202 | on one signal, R_TRIG firings less F_TRIG firings is one while the signal is high and zero while it is low |
| Counters.CTU.Execute | src/scripting/function_blocks/counters.rs:86-107 | one scan of CTU: reset wins, 32-bit saturation |
| Counters.CTD.Execute | src/scripting/function_blocks/counters.rs:260-281 | one scan of CTD: load wins, 32-bit saturation |
| Counters.CTUD.Execute | src/scripting/function_blocks/counters.rs:453-495 | one scan of CTUD: reset, then load, then up before down |
| Counters.CtuCountsEdges | src/scripting/function_blocks/counters.rs:86-107 | over every history, PV changing in it or not, CV is the rising edges since the last reset scan, up to the largest 32-bit integer, and Q says whether it has reached the PV of the last scan |
| Counters.CtdCountsEdges | src/scripting/function_blocks/counters.rs:260-281 | over every history, PV changing in it or not, CV is the PV of the last load scan less the rising edges since, down to the smallest 32-bit integer, and Q says whether that is at most zero |
| Counters.CtudCountsNetExactly | src/scripting/function_blocks/counters.rs:453-495 | CV is the last base, zero or the PV of the load scan, plus up edges less down edges all through a history if and only if no scan of it ran into a 32-bit limit |
| Counters.CtudShows | src/scripting/function_blocks/counters.rs:453-495 | over every history, clamped or not, QU is on if and only if the count has reached the PV of the last scan, QD if and only if it is at most zero, and the count is the net count as long as no limit was met |
| Counters.ToI32KeepsLowBits | src/scripting/function_blocks/counters.rs:117-140 | a preset is cut to its low 32 bits, and one that fits stays as it is |
| Counters.CtudOutputsExclude | src/scripting/function_blocks/counters.rs:490-492 | QU and QD are never both on after a scan whose PV is positive |
| Timers.TON.Execute | src/scripting/function_blocks/timers.rs:168-211 | one scan of TON in either mode |
| Timers.TOF.Execute | src/scripting/function_blocks/timers.rs:405-436 | one scan of TOF |
| Timers.TP.Execute | src/scripting/function_blocks/timers.rs:588-616 | one scan of TP |
| Timers.TON.Restore | src/scripting/function_blocks/timers.rs:275-317 | all saved fields are taken over; only a wall-clock timer saved in the middle of its time is started again, and any other keeps the start it had |
| Timers.TOF.Restore | src/scripting/function_blocks/timers.rs:475-499 | all saved fields are taken over; only a timer saved in the middle of its time is started again, and any other keeps the start it had |
| Timers.TP.Restore | src/scripting/function_blocks/timers.rs:656-683 | all saved fields are taken over; only a pulse saved in its middle is started again, and any other timer keeps the start it had |
| Timers.TonCountsScans | src/scripting/function_blocks/timers.rs:194-205 | counting scans, with a preset that may change, after k scans with the input on ET is min(k * cycle, PT) and Q is on if and only if at one of these scans the count times the cycle had reached the PT of that scan |
| Timers.TonMeasuresOnTime | src/scripting/function_blocks/timers.rs:168-211 | on the wall clock ET is the time since the input came on, up to PT, and Q is on if and only if at some scan since it had reached the PT of that scan |
| Timers.TofMeasuresOffTime | src/scripting/function_blocks/timers.rs:405-436 | Q is on while the input is and after it went off until some scan found the time since to be its PT; ET is the time since, PT on the scan that ends it, and zero after |
| Timers.TpMeasuresPulse | src/scripting/function_blocks/timers.rs:588-616 | over every history Q is on from the start of the latest pulse until some scan found the time since to be its PT, and ET is the time since |
| Timers.TimeUpWithOnePreset | src/scripting/function_blocks/timers.rs:168-211 | while the preset stays as it is, the time is up if and only if the last scan finds it so |
| Timers.TpIgnoresInputs | src/scripting/function_blocks/timers.rs:588-616 | a pulse takes no notice of any input until the first scan at or after its end, which turns Q off |
| Timers.PulsesAreApart | src/scripting/function_blocks/timers.rs:588-616 | between the starts of two pulses a scan has passed the end of the first |
| Timers.TonScanSurvivesRestart | src/scripting/function_blocks/timers.rs:262-317 | a TON counting scans goes on after a restart as if nothing had happened |
| Timers.TonFiresOnTimeExactly | src/scripting/function_blocks/timers.rs:306-313 | restored with its input still on, a wall-clock TON is on if and only if it was, or the time gone by before and after the restart has reached PT at some scan: always so if and only if ET was positive or it was on |
| Timers.TonStaysFinished | src/scripting/function_blocks/timers.rs:275-317 | restored after it had finished, a TON stays on and at its preset |
| Timers.TofEndsOnTimeExactly | src/scripting/function_blocks/timers.rs:492-495 | restored with its input still off, a TOF is on until the time gone by before and after the restart has reached PT, if and only if ET was positive |
| Timers.TpEndsOnTimeExactly | src/scripting/function_blocks/timers.rs:676-679 | a restored pulse ever ends if and only if ET was positive, and then when the time gone by before and after the restart reaches PT, whatever its input does |
| Timers.TimingIsReached | src/scripting/function_blocks/timers.rs:168-211 | every history that ends with a timer running ends in a state the three restart theorems speak of |
| Timers.RestoredTimersStick | src/scripting/function_blocks/timers.rs:306-313 | concrete timers of each kind saved with ET at zero that have not fired or ended five seconds after a restart |
| Timers.TofElapsedFalls | src/scripting/function_blocks/timers.rs:414-433 | a concrete TOF whose ET is the preset on one scan and zero on the next |
| Triggers.TriggerManager.CheckTrigger | src/scripting/triggers.rs:93-152 | one check of a trigger of any type, cron expressions included, with its debounce; only that trigger's state changes |
| Triggers.TriggerManager.CheckScript | src/scripting/engine.rs:844-856 | a script's triggers are checked in order up to the first that fires |
| Triggers.TriggerManager.CheckAllTriggers | src/scripting/engine.rs:835-857 | the loop over the active scripts collects those of which a trigger fired |
| Triggers.CheckFromFires | src/scripting/engine.rs:844-856 | stopping at the first trigger that fires loses no script, and leaves later triggers and other scripts as they were |
| Triggers.ListsThoseThatFire | src/scripting/engine.rs:835-857 | the scripts listed are exactly those with a trigger that would fire on the states before the round, in order: no script's check affects another's |
| Triggers.ListsOnce | src/scripting/engine.rs:848-853 | no script is listed twice |
| Triggers.FiringsAreApart | src/scripting/triggers.rs:110-118 | in every history two firings of a trigger are at least its debounce time, and its interval, apart |
| Triggers.IntervalFiresWhenDueExactly | src/scripting/triggers.rs:285-288 | an interval trigger fires at a check if and only if its interval, a minute if none is given, and its debounce time have passed since its last firing, a clock that was set back included |
| Triggers.ChangeFiresExactly | src/scripting/triggers.rs:188-206 | over every history a change trigger fires at a check if and only if the check is not debounced and reads a value other than the last read at a check that was not debounced, or the first |
| Triggers.GpioChangeFiresExactly | src/scripting/triggers.rs:289-324 | a pin trigger does so too, but not at the first value |
| Triggers.ScheduleFiresExactly | src/scripting/triggers.rs:209-232 | a schedule trigger fires if and only if the check is not debounced and all five fields of its expression mean the moment |
| Triggers.NeverFire | src/scripting/triggers.rs:144-146 | manual and startup triggers, and schedules and thresholds without what they compare with, never fire |
| Triggers.ThresholdDetectsEdges | src/scripting/triggers.rs:155-185 | a threshold trigger is R_TRIG run over its condition at the checks that were not debounced and found their source |
| Triggers.EdgeFiresExactly | src/scripting/triggers.rs:178-184 | when the condition becomes true, the trigger fires if and only if neither that check nor the one before was debounced |
| Triggers.LostEdgeNeverFires | src/scripting/triggers.rs:110-118 | an edge that did not fire never fires, however long the condition then stays true |
| Triggers.AnEdgeIsLost | src/scripting/triggers.rs:110-118 | a concrete trigger that fires, misses an edge within its debounce time and does not fire after it |
| ScriptContext.ListOperatorsNeverHold | src/scripting/triggers.rs:328-361 | `between` and `in` hold of no values, neither in a condition nor in a trigger |
| ScriptContext.NeDeniesEqExactly | src/scripting/engine.rs:1095-1140 | `ne` is the denial of `eq` if and only if the values are of one kind: two numbers, two strings or two truth values |
| ScriptContext.LteDeniesGtExactly | src/scripting/triggers.rs:363-375 | `lte` is the denial of `gt`, and `gte` of `lt`, if and only if both values are numbers, or in a trigger both strings |
| ScriptContext.ComparisonsAgreeExactly | src/scripting/engine.rs:1095-1140 | a condition and a threshold trigger compare alike if and only if it is not an order of two strings that holds |
| ScriptContext.IntegersCompare | src/scripting/engine.rs:1096-1118 | on integers each operator is what it is called, in conditions and triggers, the tolerance of `eq` notwithstanding |
| ScriptContext.IntegersAreNumbers | src/scripting/engine.rs:1096-1118 | an integer compares as the number without a fraction, on either side |
| ScriptContext.NumbersCompare | src/scripting/triggers.rs:328-361 | on numbers the orders are those of the numbers, each the denial or the converse of another, and `eq` holds within the tolerance |
| ScriptContext.EqualsAreTheSame | src/scripting/engine.rs:1120-1137 | truth values and strings are equal only to themselves |
| ScriptContext.TextLessExactly | src/scripting/triggers.rs:364-375 | a trigger orders strings by their first difference |
| ScriptContext.TextsCompare | src/scripting/triggers.rs:364-375 | a trigger's orders of strings are that order and its converse, and `contains` is alike in conditions |
| ScriptContext.ContainsExactly | src/scripting/engine.rs:1130-1137 | `contains` holds if and only if the string stands somewhere in the other |
| ScriptContext.ColonIsUnread | src/scripting/context.rs:133-152 | setting a variable with a colon in its name changes what no source reads |
| ScriptContext.VariableIsRead | src/scripting/context.rs:133-152 | every other variable is what `var:` or `variable:` and its name read |
| ScriptContext.SensorIsRead | src/scripting/context.rs:133-144 | a sensor is what its name reads, alone or after `sensor:` or `register:` |
| ScriptContext.PinIsRead | src/scripting/context.rs:145-150 | a pin is what its decimal number reads after `gpio:` or `pin:`, if it is below 256 |
| ScriptContext.OtherKindsRead | src/scripting/context.rs:152-190 | no other kind but time and system reads anything |
| ScriptEngine.RetainedIsUnread | src/scripting/engine.rs:1421-1434 | setting a retained variable changes no condition of any script |
| Cron.MatchesWhatItMeans | src/scripting/triggers.rs:235-278 | for every field (any, step, list, range, number) matching its text, parsed as the source does, is its meaning |
| Cron.RangeCountsForward | src/scripting/triggers.rs:260-274 | below a modulus a range matches exactly the values met counting forward from start to end, wrapping around |
| Cron.ScheduleMeansItsFields | src/scripting/triggers.rs:209-232 | an expression of five fields, split at white space of any kind and length as the source does, is due at exactly the moments at which all five mean it, whatever comes after them |
| Cron.DecimalReadsBack | src/scripting/triggers.rs:242-277 | a number's decimal text parses to the number |
| ScriptRunner.Engine.ExecuteWithDepth | src/scripting/engine.rs:894-1070 | the method with its fields does what the function ExecScript says, on any call graph, and ends |
| ScriptRunner.Engine.ExecuteAction | src/scripting/engine.rs:1148-1175 | the method does what ExecAction says, nested calls one level deeper |
| ScriptRunner.Engine.ExecuteWrite | src/scripting/engine.rs:1190-1215 | a write asks the detector under the identity in force; a lost one fails, a duplicate is not written |
| ScriptRunner.Engine.RunActions | src/scripting/engine.rs:995-1030 | the action loop with its early exits |
| ScriptRunner.Engine.RunOnError | src/scripting/engine.rs:1032-1042 | the error-handler loop with its early exit |
| ScriptRunner.Engine.RunScripts | src/scripting/engine.rs:645-658 | the script phase: detector reset, then the triggered scripts in order of priority |
| ScriptOutcomes.FailsExactly | src/scripting/engine.rs:1148-1175 | an action fails if and only if its condition is met and it is malformed, a delay over the limit, a write that loses to a higher priority or that the hardware refuses, a retained variable that is not saved, or a call that does not succeed |
| ScriptOutcomes.WriteIsRecorded | src/scripting/engine.rs:1190-1215 | after a write its target is recorded with its value unless it lost, and then as before; the hardware is asked only if it neither lost nor was there already |
| ScriptOutcomes.SetIsRead | src/scripting/engine.rs:1415-1434 | a variable that is set is what the next condition reads, a retained one is stored under the script in force, and nothing else changes |
| ScriptOutcomes.IdleActionsChangeNothing | src/scripting/engine.rs:1149-1161 | an action whose condition is not met, a delay, a notice and a malformed action change nothing |
| ScriptOutcomes.SucceedsExactly | src/scripting/engine.rs:894-1070 | a script succeeds if and only if it is not too deep, admitted and found, and either does not meet all its conditions or every action is reached in time and within the limit and does not fail |
| ScriptOutcomes.CleanFramesHandleNothing | src/scripting/engine.rs:1032-1042 | in every world, on any call graph, a frame fails if and only if one of its actions fails or is cut off, and one that does not ends as if it had no error handlers |
| ScriptOutcomes.SomeHandlerRunsExactly | src/scripting/engine.rs:1032-1042 | under every clock some handler runs if and only if the frame failed, there is one, and time and limit are not used up |
| ScriptOutcomes.HandlersRunExactly | src/scripting/engine.rs:995-1042 | with time enough a frame runs exactly its actions up to the limit and, if and only if one fails or is cut off, its handlers up to what is left of the limit |
| ScriptOutcomes.ActionsRunInOrder | src/scripting/engine.rs:995-1030 | running a list and then another is running both in one, unless the first is cut off |
| ScriptOutcomes.HandlersRunInOrder | src/scripting/engine.rs:1034-1042 | the same of error handlers |
| ScriptOutcomes.RunsWhatItCalls | src/scripting/engine.rs:1515-1558 | a call runs what the script it calls runs and comes out as that does; a script that was skipped is counted and remembered |
| ScriptBounds.ScriptIsBounded | src/scripting/engine.rs:894-1070 | on any call graph, cycles included, a top-level script with all it calls runs at most the sum of (max_actions_per_run + 1)^i for i up to max_call_depth actions |
| ScriptBounds.FrameIsBounded | src/scripting/limits.rs:184-193 | one frame, error handlers included, runs at most max_actions_per_run + 1 actions |
| ActionLimit.ActionLimitHoldsExactly | src/scripting/limits.rs:184-193 | under every clock that does not go back a frame, error handlers and nested calls included, runs at most max_actions_per_run actions of its own if and only if its action list is no longer than that |
| ActionLimit.LongListExceedsLimit | src/scripting/engine.rs:995-1020 | for every longer list, on any call graph, a clock under which exactly one action too many runs |
| ActionLimit.FrameIsLocal | src/scripting/engine.rs:894-1070 | what a frame does depends only on the clock and hardware samples it has taken |
| ScriptBounds.UncountedActionRuns | src/scripting/engine.rs:995-1020 | the extra action happens: with a limit of one action two run |
| ScriptIdentity.ScriptIsFiled | src/scripting/engine.rs:949-957 | every write of a script and of all it calls is filed under the identity in force, the detector sees exactly these writes, and the caller's identity is put back unless the script was skipped |
| ScriptIdentity.IdentityKeptExactly | src/scripting/engine.rs:968-984 | in every world a call leaves the caller's identity in force if and only if it is too deep, over its rate, not found or meets its conditions, or calls the very script in force |
| ScriptIdentity.FiledUnderOwnNameExactly | src/scripting/engine.rs:1190-1194 | a write reaches the detector under the name and priority of the script whose action it is if and only if that script called none before it that was skipped, or last itself |
| ScriptIdentity.AllFiledUnderOwnName | src/scripting/engine.rs:1190-1194 | if every called script met its conditions, all writes of a nested execution are filed under their own names, in order |
| ScriptIdentity.FreeCallsFileUnderOwnName | src/scripting/engine.rs:949-957 | when no script that is called has conditions, every write of every execution from every clean world is filed under its own name and priority |
| ScriptIdentity.SkippedCalleeLendsItsPriority | src/scripting/engine.rs:968-984 | from every clean world, a script that begins with a call and a write and whose callee does not meet its conditions makes that write under the callee's name and priority |
| ScriptIdentity.EverySuchSetupLeaks | src/scripting/engine.rs:949-984 | every setup with a script without conditions that begins with a call of one with conditions and a write, and limits that admit both, leaks in some run, whatever else the scripts do |
| ScriptCycle.SortsStably | src/scripting/engine.rs:859-860 | the trigger sort gives descending priority, keeps the order among equals, and keeps exactly the scripts it was given |
| ScriptCycle.MapOrderIsHiddenExactly | src/scripting/storage.rs:381-388 | the order of execution is the same for all orders in which a map yields a set of scripts if and only if no two of them have one priority |
| ScriptCycle.CycleEndsWithHighestPriority | src/scripting/engine.rs:645-658 | a cycle of scripts that call no others leaves every target with the last value its highest-priority writer gave it, whatever was triggered, skipped, limited or failed |
| ConflictDetector.ConflictDetector.CheckGpioWrite | src/scripting/conflict.rs:75-148 | decides by the common rule, records accordingly, and touches no other target |
| ConflictDetector.ConflictDetector.CheckModbusWrite | src/scripting/conflict.rs:151-210 | decides by the common rule, records accordingly, and touches no other target |
| ConflictDetector.ConflictDetector.CheckCoilWrite | src/scripting/conflict.rs:213-272 | decides by the common rule, records accordingly, and touches no other target |
| ConflictDetector.ConflictDetector.Reset | src/scripting/conflict.rs:66-70 | nothing is recorded for any target |
| ConflictDetector.RecordedIsDriven | src/scripting/conflict.rs:75-148 | in every run the recorded value is the last one let through, so not writing a duplicate never changes the target |
| ConflictDetector.PriorityNeverFalls | src/scripting/conflict.rs:75-148 | with fixed priorities the recorded priority of a target never falls between resets |
| ConflictDetector.HighestPriorityWins | src/scripting/conflict.rs:75-148 | writes in descending priority leave the last value of the highest-priority writer |
| ConflictDetector.LastOfHighestIs | src/scripting/conflict.rs:110-140 | that value is the one of a write that none beats and none ties with later |
| ConflictDetector.SafeUnlessDuplicateOfLower | src/scripting/conflict.rs:96-99 | a write's value holds against all later writers of lower priority if and only if what is recorded before it is nothing, its own script's, another value it may override, or its own value with at least its priority |
| ConflictDetector.DuplicateLosesToLower | src/scripting/conflict.rs:96-99 | three writes from an empty detector after which the low-priority value is driven |
| CircuitBreaker.CircuitBreaker.IsOpen | src/resilience/circuit_breaker.rs:111-177 | one request, alone: the answer and the new state, permit included |
| CircuitBreaker.CircuitBreaker.Release | src/resilience/circuit_breaker.rs:184-204 | one release, alone |
| CircuitBreaker.CircuitBreaker.Success | src/resilience/circuit_breaker.rs:207-242 | one reported success, alone |
| CircuitBreaker.CircuitBreaker.Failure | src/resilience/circuit_breaker.rs:245-263 | one reported failure, alone |
| CircuitBreaker.CircuitBreaker.Reset | src/resilience/circuit_breaker.rs:299-305 | back to a fresh breaker |
| CircuitBreaker.OpensAtThreshold | src/resilience/circuit_breaker.rs:245-263 | from fresh, and from every moment it closes, over every history, the breaker opens exactly at the threshold-th failure in a row |
| CircuitBreaker.OpenHoldsItsDeadline | src/resilience/circuit_breaker.rs:111-132 | until the recovery time every request is rejected, and no outcome reported while open moves the deadline |
| CircuitBreaker.RecoversUnlessOpenedAtZero | src/resilience/circuit_breaker.rs:122-126 | an open breaker ever becomes due if and only if it did not open at clock zero |
| CircuitBreaker.HalfOpenDecides | src/resilience/circuit_breaker.rs:207-263 | a half-open phase is decided by the first failure or the second success, whichever comes first |
| CircuitBreaker.RecoveryCycle | src/resilience/circuit_breaker.rs:111-263 | open, whatever is reported, due, one request let through, then closed by two successes or opened by a failure |
| CircuitBreaker.PhaseIsHistory | src/resilience/circuit_breaker.rs:111-281 | over every history without reset the phase, the deadline and the counts are those of an automaton that reads the history alone |
| CircuitBreaker.AnswersFollowHistory | src/resilience/circuit_breaker.rs:111-177 | and so is every answer, but for the permits of a half-open phase |
| CircuitBreaker.HalfOpenLimitHolds | src/resilience/circuit_breaker.rs:151-175 | if every report of a half-open phase comes from a request holding a permit, at most the limit are out at once and the counter says how many |
| CircuitBreaker.ReportKeepsCountExactly | src/resilience/circuit_breaker.rs:184-204 | a report keeps the count of permits exact if and only if its reporter holds one or none is out |
| CircuitBreaker.ReportIsHarmlessExactly | src/resilience/circuit_breaker.rs:184-263 | whatever other requests do in turn after it, a report of a half-open phase never leads past the limit if and only if its reporter holds a permit, none is out, or it ends the phase |
| CircuitBreaker.LateReportBreaksLimit | src/resilience/circuit_breaker.rs:184-204 | a late report of an old request frees another's permit: a concrete run over the limit |
| CircuitBreakerThreads.PermitsAreSafe | src/resilience/circuit_breaker.rs:111-305 | in every interleaving the permit counter stays between zero and its limit, and permits taken are those out, given back and wiped |
| CircuitBreakerThreads.StartsFresh | src/resilience/circuit_breaker.rs:86-108 | all threads begin idle on a fresh breaker |
| CircuitBreakerThreads.PhaseChange | src/resilience/circuit_breaker.rs:111-305 | only a given operation makes each change of phase; Closed never becomes HalfOpen, Open becomes Closed only by reset |
| CircuitBreakerThreads.ClosesThroughHalfOpen | src/resilience/circuit_breaker.rs:111-281 | without resets every interleaving from open to closed passes through half-open |
| CircuitBreakerThreads.SoloCallIsAtomic | src/resilience/circuit_breaker.rs:111-305 | each call, run with no other thread in between, does what the atomic object does and answers alike, within nine operations |
| CircuitBreakerThreads.UndisturbedCallIsAtomic | src/resilience/circuit_breaker.rs:111-305 | in any state of a run of any number of threads, such a call has the effect of the atomic object and changes no other thread |
| CircuitBreakerThreads.EveryCallEnds | src/resilience/circuit_breaker.rs:111-305 | no call is ever stuck: wherever a thread is and whatever others did to the memory, eleven operations of its own, with no other thread in between, end its call |
| CircuitBreakerThreads.HalfOpenLimitHoldsExactly | src/resilience/circuit_breaker.rs:128-175 | threads that ask again only after reporting, and reset nothing, never have more requests out than the half-open limit, in every interleaving, if and only if there are no more threads than that |
| CircuitBreakerThreads.OvertakenTransitionOvergrants | src/resilience/circuit_breaker.rs:128-146 | for every configuration and more threads than permits, an interleaving from the start with one request too many out |
| ModbusClient.ModbusClient.ReadAllRegisters | src/modbus.rs:665-714 | returns exactly the registers that were read, counts the others, and drives the breaker as the read rule says |
| ModbusClient.ModbusClient.ReadTimedOut | src/modbus.rs:1031-1050 | a read cut off by the device timeout has taken its permit and then counts as a failure |
| ModbusClient.ReadReturnsItsPermitExactly | src/modbus.rs:674-685 | a read leaves no permit out if and only if it was not let through half-open without a connection or without registers |
| ModbusClient.NoPermitBetweenReads | src/modbus.rs:665-714 | with a connected device that has registers no permit is out between reads |
| ModbusClient.TwoGoodReadsClose | src/modbus.rs:707-711 | whatever came before, two good reads close a breaker that is open and due |
| ModbusClient.ModbusClient.Connect | src/modbus.rs:455-477 | the breaker is reset, then records how the attempt ended unless it timed out; only a success connects |
| ModbusClient.ModbusClient.IsCircuitOpen | src/modbus.rs:445-447 | asks like a request, permit included |
| ModbusClient.StuckStays | src/modbus.rs:665-714 | with all permits lost, or opened at clock zero, nothing but a connect changes the breaker |
| ModbusClient.BlockedUntilConnectExactly | src/modbus.rs:455-477 | a blocked client stays so over every history up to the next connect, and no longer |
| ModbusClient.BlockedIsStuck | src/modbus.rs:455-477 | of every client: nothing but a connect ever lets a request through again if and only if its breaker has lost all permits or opened at clock zero |
| ModbusClient.ConnectBeginsAnew | src/modbus.rs:455-477 | whatever came before, after a connect the breaker of a connected client is open once three reads have failed in a row, or two if the connect was refused |
| ModbusClient.NoRegistersNeverOpens | src/modbus.rs:305-375 | the breaker of a client without registers stays closed over every history |
| ModbusClient.NeverLinkedNeverOpens | src/modbus.rs:455-477 | the breaker of a client that never got a connection stays closed over every history |
| ModbusClient.BlockedExactly | src/modbus.rs:665-714 | after every history of a new client, one more event leaves it blocked until the next connect if and only if it is no connect, and either it was blocked before, or the event was let through half-open and is a mere question or finds no connection, or it is a failing read that opens the breaker at clock zero |
| ModbusClient.DisconnectedReadBlocks | src/modbus.rs:674-685 | a concrete history from a new client: three failed reads, a disconnect, and a read after the recovery time that blocks it |
| ModbusClient.QuestionBlocks | src/modbus.rs:445-447 | a concrete history in which a mere question blocks a connected, healthy device after one good read half-open |
| ModbusClient.OpenedAtZeroBlocks | src/modbus.rs:665-714 | a concrete history in which failures at clock zero block the client |
| TokenBucket.RateLimiter.TryAcquireN | src/resilience/rate_limiter.rs:155-194 | one acquisition, alone: the answer, the tokens and the refill mark |
| TokenBucket.RateLimiter.AvailableTokens | src/resilience/rate_limiter.rs:197-200 | refills and tells the tokens |
| TokenBucket.RateLimiter.Reset | src/resilience/rate_limiter.rs:208-211 | full again, with the refill mark at the clock |
| TokenBucket.RateBound | src/resilience/rate_limiter.rs:112-194 | no run grants more between t1 and t2 than capacity + refill_amount * ((t2 - t1) / interval + 1) |
| TokenBucket.GrantedByClaims | src/resilience/rate_limiter.rs:112-194 | a run grants at most what is in the bucket and what can still be claimed before it ends |
| TokenBucket.RateBoundIsReached | src/resilience/rate_limiter.rs:112-194 | the bound is reached for every configuration that refills at most a bucketful |
| TokenBucket.RefillComposes | src/resilience/rate_limiter.rs:112-143 | refilling early and again is refilling once: no drift |
| TokenBucket.ProbesChangeNoDecision | src/resilience/rate_limiter.rs:197-200 | any number of `available_tokens` calls anywhere changes no later decision |
| TokenBucket.AcceptedIntervalMayBeUnusable | src/resilience/rate_limiter.rs:86-104 | an accepted interval, in nanoseconds, is usable if and only if it is a millisecond or more |
| TokenBucketThreads.BucketIsSafe | src/resilience/rate_limiter.rs:112-194 | in every interleaving without reset tokens stay within capacity, the refill mark is start + interval * claimed, and while nothing is claimed granted + remaining is the capacity |
| TokenBucketThreads.EveryInterleaving | src/resilience/rate_limiter.rs:112-194 | every interleaving keeps the ledger, the claims and what threads in the middle of a refill still owe |
| TokenBucketThreads.RateHoldsExactly | src/resilience/rate_limiter.rs:112-194 | in every interleaving no more is granted than capacity + refill_amount for each interval that has ended by the clock, if and only if there is at most one thread or refill_amount >= capacity |
| TokenBucketThreads.UndisturbedRateBound | src/resilience/rate_limiter.rs:112-194 | if no refill store is disturbed, all threads together stay within capacity + refill_amount for each ended interval |
| TokenBucketThreads.SoloCallIsAtomic | src/resilience/rate_limiter.rs:155-194 | a call run with no other thread in between does what the atomic object does |
| TokenBucketThreads.EveryCallEnds | src/resilience/rate_limiter.rs:112-194 | no call is ever stuck: seven operations of its own, with no other thread in between, end the call of any thread in any state |
| TokenBucketThreads.DisturbedStoreOvergrants | src/resilience/rate_limiter.rs:130-132 | for every bucket that one refill does not fill and any two or more threads, an interleaving that grants the capacity twice when one interval has ended |
| OfflineQueue.OfflineQueue.Enqueue | src/offline_queue.rs:256-302 | evicts the right number of rows, worst first, and adds the message with a new id; the table never outgrows the larger of its limit and what it held |
| OfflineQueue.OfflineQueue.MakeRoom | src/offline_queue.rs:266-287 | both evictions together are one, of the right number of rows, and leave room for a message within the larger of the limit and what the table held |
| OfflineQueue.OfflineQueue.EvictForDiskSpace | src/offline_queue.rs:188-213 | evicts up to a count, worst first |
| OfflineQueue.OfflineQueue.EvictOne | src/offline_queue.rs:305-324 | evicts a worst row |
| OfflineQueue.OfflineQueue.Peek | src/offline_queue.rs:330-363 | loses only what has expired and returns a row no other is to be sent before |
| OfflineQueue.OfflineQueue.PeekBatch | src/offline_queue.rs:398-430 | returns the first rows in order of sending, as many as asked for or there are |
| OfflineQueue.OfflineQueue.Ack | src/offline_queue.rs:366-379 | deletes exactly the row with that id and tells whether there was one |
| OfflineQueue.OfflineQueue.AckBatch | src/offline_queue.rs:433-459 | deletes exactly the rows with those ids and counts them |
| OfflineQueue.OfflineQueue.Nack | src/offline_queue.rs:384-395 | raises the retry count of that row and nothing else |
| OfflineQueue.OfflineQueue.CleanupExpired | src/offline_queue.rs:462-481 | deletes exactly the rows older than the limit |
| OfflineQueue.KeepsTheBest | src/offline_queue.rs:256-324 | after any enqueues on any opened table it is the newest message and the best of all earlier ones, the rows it was opened with among them, as many as fit, however many evictions there were |
| OfflineQueue.SizeIs | src/offline_queue.rs:256-302 | how many rows the table then has: all of them, up to its limit or to what it was opened with |
| OfflineQueue.LimitHoldsExactly | src/offline_queue.rs:121-160 | after any enqueues the table is within its limit if and only if it was when opened |
| OfflineQueue.ReopenedStaysOver | src/offline_queue.rs:266-287 | a concrete table of three rows, opened with a limit of one, that has three rows after an enqueue |
| OfflineQueue.BestAreFewerThan | src/offline_queue.rs:305-324 | without equal keys an earlier message is kept if and only if fewer earlier ones, more urgent or as urgent and newer, are better than there are places besides the newest |
| OfflineQueue.LastAreKept | src/offline_queue.rs:305-324 | with one priority and a rising clock the table is exactly the last messages, as many as it has room for |
| OfflineQueue.EvictionsAre | src/offline_queue.rs:266-287 | how many rows one enqueue evicts: one at the limit, and a tenth of the table, at least five and at most fifty, when the file is too large |
| OfflineQueue.ZeroKeepsTheNewest | src/offline_queue.rs:272-274 | with a limit of zero, as with one, the table holds the newest message and no other |
| OfflineQueue.EvictsCompose | src/offline_queue.rs:276-287 | evicting in two goes is evicting once |
| OfflineQueue.BatchIsDrainExactly | src/offline_queue.rs:398-430 | a sequence is a batch of n if and only if it is n single steps of peek and ack |
| OfflineQueue.AckBatchRemovesTheRows | src/offline_queue.rs:433-459 | acknowledging a batch removes its rows and no others |
| OfflineQueue.NackChangesNoOrder | src/offline_queue.rs:384-395 | a nack anywhere changes no order of sending |
| OfflineQueue.NackRaises | src/offline_queue.rs:384-395 | the count of tries of that row goes up by one, every other row stays, and none is lost |
| OfflineQueue.DrainDeliversAll | src/offline_queue.rs:330-379 | draining delivers every message once, most urgent first and oldest first among equals, nothing that had expired when it was looked for, and everything except what had expired at some peek |
| OfflineQueue.FirstInFirstOut | src/offline_queue.rs:330-379 | with a rising clock, room for all and no expiry, a full drain sends no message before a more urgent one, and the messages of each priority in the order in which they were enqueued |
| SlidingWindow.RateLimiter.Check | src/commands.rs:49-68 | the pruned deque decides exactly as a limiter that keeps the whole history |
| SlidingWindow.AtMostLimitPerWindow | src/commands.rs:49-68 | in every run every closed interval of window length holds at most the limit of acceptances |
| SlidingWindow.KeptDecides | src/commands.rs:52-67 | what is left after pruning is all that the whole history counts |
| ScriptRateLimiter.Limiter.Check | src/scripting/limits.rs:92-110 | one call, which touches only that script's window |
| ScriptRateLimiter.WindowKeepsLimitExactly | src/scripting/limits.rs:108-109 | a window keeps to its limit if and only if it sees at most 2^32 calls (or the limit is zero) |
| ScriptRateLimiter.GrantsInWindowClosedForm | src/scripting/limits.rs:108-109 | how many calls of a window are granted, counter wrap included |
| ScriptRateLimiter.WindowsAreAMinuteApart | src/scripting/limits.rs:102-106 | consecutive windows start at least a minute apart |
| ScriptRateLimiter.GrantsInAnyMinute | src/scripting/limits.rs:92-110 | in a run of any length whose windows each stay within the call counter, any half-open minute holds at most twice the limit less one grants (none, if the limit is zero) |
| ScriptRateLimiter.AnyMinuteBoundIsReached | src/scripting/limits.rs:92-110 | a concrete run that reaches that bound |
| ScriptRateLimiter.WrappedWindowOvergrants | src/scripting/limits.rs:108-109 | 2^32 + 1 calls in one window with a limit of one, of which two are granted |
| ScriptRateLimiter.ScriptsAreIndependent | src/scripting/limits.rs:92-110 | a script is granted exactly what it would be if it were alone |

## Left out

- Rodbus, rppal, MQTT, HTTP provisioning, TLS, health server, telemetry, systemd and signals: foreign I/O.
- SQLite itself: the queue's table is a set of rows, the block store a map; a row that is missing, unreadable or not an object is absent, and the size of the database file is an argument.
- Serde, JSON and YAML parsing, logging, the counts returned only for logs, and messages: values are datatypes, and the sources of block wires are already taken apart (those of conditions are read as strings).
- Floating point: numbers compare as reals, with the source's epsilon; rounding, `interpolate` and `scaled_value` are not modelled.
- Machine overflow of 64-bit clocks, intervals and token products, and of the scan count times the cycle time. 32-bit counters are modelled with their saturation, casts and wrap.
- Hardware write failures in the theorems about driven values: a write that is let through succeeds there, although `ScriptRunner` runs failing writes too.
- ScriptRateLimiter.Limiter.Check: one clock sample a call; the source looks twice and may start a window a moment later.
- Triggers.TriggerManager.CheckTrigger: one clock sample a check; white space in a cron expression is ASCII; a clock set back under a debounce wraps as in a release build.
- TriggerManager::reset_script: deletes states by a text prefix, which also meets scripts whose id begins with the same text and a colon.
- ScriptRunner.Engine.ExecuteAction: alert, log, publish and noop are one action that succeeds; a delay takes no time of its own beyond the next clock sample; sources of the kinds `time` and `system` do not change during a run; the store of retained variables is not modelled, only whether a save succeeded.
- BlockHistories.BlocksShow: a timer's looks at the clock are in order, and a TON that changes its mode in the middle of a history has no closed form; its single steps are modelled.
- BlockState.RoundTrip: block types are matched with ASCII upper case only.
- OfflineQueue.KeepsTheBest: without acks, expiry and the disk limit in between; `Enqueue` itself is modelled with them.
- TokenBucketThreads.BucketIsSafe: without `reset`, whose two plain stores void any account of grants.
- `src/scripting/parallel.rs`, script storage, program deploy and rollback, byte-order combination, MQTT backoff, bounded collections and config validation: scheduling by the runtime, or settled by one branch.
- `reset` of blocks, `reset_all` and `clear` of the registry, and the queue's `stats`, `clear` and vacuum: easy members.
