# Verification of the air-conditioner bridge

A model, in Dafny, of the firmware that connects a Daikin S21 air conditioner to Matter
controllers, with proofs of what its four stateful parts promise:

- the **sync kernel**: six observed / desired / in-flight twins, the reconciler that routes
  controller writes, polls and command notifications into them, and the projector that turns
  them into cluster attributes;
- the **UART transaction machine**: the call that takes the lock, the interrupt routine, the
  completion on the work queue, with the hardware as an adversary that raises any events;
- the **S21 wire**: frame codec, checksum, the stream cut at a stop byte, and the operation
  payloads with their half-degree steps;
- the **manager**: capability tracking, read-through caches, getters and setters.

## How it is built

Code that updates objects in place is a class here: `TwinFields.TwinField`,
`Reconciler.LogicalAcState`, `Reconciler.Reconciler`, `S21DataLinkUart.UartDriver`,
`S21Manager.CommandCapability`, `S21Manager.ReadThroughCache` and `S21Manager.Orchestrator`
have the source's fields and branches, and every method's contract equates the object's new
abstract value (`View()`) with one step of a state machine on values (`Kernel`,
`S21DataLinkUart.Step`, the value functions in `S21Manager`). The theorems are about runs of
those state machines, so they hold of the classes. Time is an argument of each step; device
answers and hardware events are arguments as well, chosen freely unless a `requires` says
otherwise. 16-bit and 8-bit arithmetic, C++ division and out-of-range enumeration bytes are
written out.

| file | content |
|---|---|
| `Options`, `MachineInts` | optional values, results, machine integers |
| `TwinFields`, `FanMapping`, `AcTypes` | the twin algebra, fan levels and percents, the values exchanged |
| `Kernel`, `Projector`, `Reconciler` | the kernel as a state machine, the attribute view and its diff, the mutable reconciler |
| `DeviceView`, `RunInvariants`, `FanConsistency` | what holds in every run |
| `WriteEffects` | the device-wins window, what each write makes wanted, and its way to the device |
| `Convergence`, `PumpRace` | what becomes of a command, and of writes that overtake it |
| `Subscriber`, `Bundles`, `AutoBand` | reports, bundled writes, the Auto band and the raise/lower command |
| `S21Frame`, `S21Presentation`, `S21Device` | frames, operation payloads, and the unit that reads them |
| `S21DataLinkUart` | the transaction machine |
| `S21Manager`, `ManagerProperties` | capability, caches, getters and setters, and their runs |
| `WireLoop` | kernel, cache and device in one loop |

`dafny verify dfyconfig.toml` checks everything.

## What the proofs found

The code is modelled as it is. Where a comment or an expectation is stronger than the code,
the exact condition is proved.

- **A write during a send can be lost.** The pump marks twins as in flight after a blocking send,
  with what is wanted by then (`src/airconditioner_manager.cpp:278-290`). Once the device has
  echoed the command, a write that landed meanwhile makes another command pending if the command
  had changed that axis. On an axis the command left alone it gets stuck: it is not confirmed, and
  it goes out only as a passenger, when some other axis makes a command pending
  (`OvertakenForwardedIff` gives the exact condition, `WriteDuringSendIsLost` and
  `StuckSpeedTravelsAlong` the two outcomes).
- **A panel change cannot always be undone.** Suppressing a repeat of the last delivered command
  also swallows the write that returns to it after the panel moved the unit away
  (`ForwardedIff`, `PanelOffIsNotUndone`).
- **An off-grid setpoint settles only by way of the cache.** Auto midpoints are in hundredths of a
  degree, the wire has half degrees, and the manager's cache keeps what was sent. If the first poll
  comes within the age of the cache (5 s, at a poll period of 10 s), the kernel settles on a setpoint
  the device does not have, and the next cache miss overwrites the controllers' wish with the
  device's version. If it comes later, device and controllers stay apart. Only multiples of 50, and
  modes without a setpoint, settle and stay (`LoopOutcome`, `LoopSettlesIff`, `SettlesEverIff`).
- **Speed and percent can disagree.** A poll that contradicts the level in flight moves the percent to
  the reported level while the wanted level stays: they agree afterwards exactly when the two levels
  are the same. Confirmations and panel changes always leave them in agreement, other polls as they
  were (`ConsistentAfterPoll`, `ClampLeavesFanApart`).
- **The exact percent can snap.** `src/sync/logical_ac_state.h:117-121` promises that it does not
  on the next poll. It does when the device owns the fan at the send: an idempotent poll between write
  and send takes it over, and a percent of a level already wanted does not take it back
  (`ConfirmationKeepsPercentIff`, `ExactPercentSurvival`, `RewriteLosesPercent`).
- **Two edge writes one by one do not translate the Auto band**, except by up to three hundredths of a
  degree toward zero; otherwise the second halving stops short of what the bundle reaches, about a
  quarter of the way (`SequenceFallsShort`, `BundleArrives`). Repeated one-edge writes end on the target
  from above and 0.01 degrees below it from below (`FifteenWritesArrive`).
- **Handing over a command changes the projection without a report**, exactly when a write is waiting that
  subscribers already see (`SendingTakesReadingBack`).
- **A failed send clears no in-flight value**, although `src/sync/reconciler.h:128-131` says so; it
  does re-arm the command (`RetriedAfterFailure`).
- **A cached setpoint can differ from the device's** by less than half a degree, exactly while the
  cache still holds an accepted off-grid setpoint (`GettersTransparent`).
- **A lost acknowledgement lets the next setter undo the change.** The cache then misses a change the
  device made, and a partial setter served from it sends the old fields back
  (`LostAckKeepsAgreementIff`, `NextSetterAfterLostAck`).
- **Branches marked unreachable are reachable.** Any byte a device sends is cast to the mode and fan
  enumerations (`src/s21/s21_presentation.cpp:108-110`), so the defaults in
  `src/sync/reconciler.cpp:37` and `:79` are taken exactly for the bytes that name nothing
  (`UnnamedIffUnlisted`, `UnnamedBytesArrive`).
- **The checksum misses some single-byte errors**: exactly those that move the byte sum between a
  reserved value and that value plus two (`SingleByteCorruption`, `CollisionExists`).

## Model

| member | source | states |
|---|---|---|
| `TwinFields.TwinField.constructor` | src/sync/twin_field.h:37-41 | a fresh twin is observed and wanted at the initial value, nothing in flight, attributed to boot |
| `TwinFields.TwinField.Dirty` | src/sync/twin_field.h:66-70 | there is an unsent wish exactly when the wanted value is not what the device has or is about to have |
| `TwinFields.TwinField.SetDesired` | src/sync/twin_field.h:82-86 | an intent sets the wanted value and the attribution and touches nothing else; asserting the value already wanted changes nothing |
| `TwinFields.TwinField.PromoteDesiredToInFlight` | src/sync/twin_field.h:92-95 | what is wanted now is in flight, all else as before |
| `TwinFields.TwinField.ApplyObservation` | src/sync/twin_field.h:97-150 | the five-way observation rule in closed form: observed is always the reported value, desired follows only an external change, in flight survives only a stale poll, attribution survives a stale poll and a confirmation |
| `FanMapping.PercentRule` | src/sync/fan_mapping.h:46-55 | percent to level is the ceiling rule of section 4.4.6.3.1 of the Matter 1.5 Application Cluster Specification, both directions |
| `FanMapping.LevelSurvivesPercent` | src/sync/fan_mapping.h:40-55 | deriving a percent from a level and mapping it back is the identity on all levels and Auto |
| `FanMapping.PercentThroughLevel` | src/sync/fan_mapping.h:40-55 | the other trip rounds a percent up to the end of its level's range |
| `AcTypes.DeviceEnumsRoundTrip` | src/sync/reconciler.cpp:14-80 | mode and fan sent to the device and read back mean what the controller asked |
| `Projector.DiffProjections` | src/sync/projector.cpp:160-228 | the report names, in the fixed order and once each, exactly the attributes that changed |
| `Projector.DiffPowerAndMode` | src/sync/projector.cpp:167-183 | power and mode changes report SystemMode once, whichever of them changed |
| `Projector.ProjectedSpeedCurrent` | src/sync/projector.cpp:100-107 | the current speed never exceeds the maximum of the scale |
| `Reconciler.LogicalAcState.constructor` | src/sync/logical_ac_state.h:37-51 | the boot state with its default values |
| `Reconciler.Reconciler.constructor` | src/sync/reconciler.cpp:84-87 | nothing observed from the device yet, no command sent |
| `Reconciler.Reconciler.ApplySetOnOff` | src/sync/reconciler.cpp:168-173 | a power write takes hold unless it contradicts a poll inside the device-wins window |
| `Reconciler.Reconciler.ApplySetSystemMode` | src/sync/reconciler.cpp:175-188 | power and mode are guarded each by its own stamp; a power-off keeps the mode |
| `Reconciler.Reconciler.ApplySetHeatingSetpoint` | src/sync/reconciler.cpp:190-219 | a heat write is guarded in Heat, moves the centre in Auto, and is an unguarded shadow write elsewhere |
| `Reconciler.Reconciler.ApplySetCoolingSetpoint` | src/sync/reconciler.cpp:221-246 | the same for the cool edge |
| `Reconciler.Reconciler.PowerOnForFanWrite` | src/sync/reconciler.cpp:248-256 | a fan write to a unit seen off wants the power on too, if the guard lets it |
| `Reconciler.Reconciler.ApplySetSpeed` | src/sync/reconciler.cpp:258-270 | a speed write sets level, power and the derived percent, or nothing |
| `Reconciler.Reconciler.ApplySetPercent` | src/sync/reconciler.cpp:272-281 | a percent write sets level and power and remembers the exact percent; a null write changes nothing |
| `Reconciler.Reconciler.Apply` | src/sync/reconciler.cpp:285-289 | every kind of write takes the state through its kernel step |
| `Reconciler.Reconciler.ApplyWrite` | src/sync/reconciler.cpp:285-292 | a write takes one kernel step, reports exactly what it changed and returns the pending command |
| `Reconciler.Reconciler.ApplyWriteBundle` | src/sync/reconciler.cpp:294-332 | a bundle collapses the last edge pair in Auto and applies the rest in order, with an exact report and the pending command |
| `Reconciler.Reconciler.FindLastEdges` | src/sync/reconciler.cpp:301-306 | the scan finds the last heat and the last cool edge of the bundle |
| `Reconciler.Reconciler.ApplyEach` | src/sync/reconciler.cpp:320-328 | the loop applies the writes in order, leaving out the edges exactly when they were collapsed |
| `Reconciler.Reconciler.ApplyOperationalObservation` | src/sync/reconciler.cpp:334-401 | a poll takes one kernel step, reports exactly what it changed and may return a command |
| `Reconciler.Reconciler.ObserveTwins` | src/sync/reconciler.cpp:340-365 | power, mode and the setpoint of the observed mode are observed and stamped, the other shadows stay |
| `Reconciler.Reconciler.ObserveActiveSetpoint` | src/sync/reconciler.cpp:347-365 | the reported setpoint reaches the twin of the reported mode only; Dry and FanOnly reach none |
| `Reconciler.Reconciler.ObserveFan` | src/sync/reconciler.cpp:367-381 | the remembered percent follows the device only when the device changed the level |
| `Reconciler.Reconciler.Fuse` | src/sync/reconciler.cpp:91-153 | the direction signals are consulted in order of authority: power, mode byte, valve, temperature |
| `Reconciler.Reconciler.ApplyEnvironmentalObservation` | src/sync/reconciler.cpp:403-414 | a sensor poll sets the three sensor values and reports exactly what changed |
| `Reconciler.Reconciler.NotifyLinkDown` | src/sync/bridge_kernel.h:65 | a lost link changes reachability and nothing else |
| `Reconciler.Reconciler.NextCommand` | src/sync/reconciler.cpp:416-450 | a command is pending exactly when some twin is dirty and the full command differs from the last one sent |
| `Reconciler.Reconciler.OnCommandSent` | src/sync/reconciler.cpp:452-473 | power, mode, fan and the setpoint of the wanted mode go in flight as wanted now, and the command is remembered |
| `Reconciler.Reconciler.OnCommandFailed` | src/sync/reconciler.cpp:475-481 | only the memory of the last command is cleared |
| `WriteEffects.DeviceWins` | src/sync/reconciler.h:81-84 | in every run, a write that contradicts what a poll reported less than the window ago changes nothing at all: power, mode, fan, an edge in its own mode and the centre in Auto |
| `WriteEffects.StampedByLastPoll` | src/sync/reconciler.cpp:337-370 | in every run the stamps of power, mode, fan and the reported mode's setpoint are the time of the last poll, and their observed values what it said |
| `WriteEffects.PowerAndModeWrites` | src/sync/reconciler.cpp:168-188 | in every run a power or system-mode write, on or off, makes that value wanted unless the device just said another; a power-off keeps the mode; nothing else changes |
| `WriteEffects.FanWrites` | src/sync/reconciler.cpp:248-281 | in every run a speed or percent write makes its level wanted and remembers its percent, and wants a unit seen off on, unless the device just said another; nothing else changes |
| `WriteEffects.SetpointWrites` | src/sync/reconciler.cpp:190-246 | in every run an edge is wanted in its own mode, the halfway centre in Auto, each unless the device just said another, and a shadow edge always; nothing else changes |
| `WriteEffects.WriteIsSent` | src/sync/reconciler.cpp:416-450 | in every run, from rest and past the window: each kind of write makes a command pending iff it asks for something the device does not do and the command that puts it through, repeating the rest, is not the last one delivered |
| `WriteEffects.WriteArrives` | src/sync/reconciler.cpp:285-473 | and once that command is handed over, polled while stale and echoed, the device holds what was written, with nothing in flight |
| `DeviceView.NonInterference` | src/sync/reconciler.cpp:334-414 | in every run, observed values, sensors, running mode, reachability and stamps are those of the run with all writes, bundles, sends and failures deleted |
| `DeviceView.ControllerUnseen` | src/sync/reconciler.cpp:168-332 | no write, bundle, send or failure touches what is believed of the device |
| `DeviceView.ReportsDetermine` | src/sync/reconciler.cpp:334-414 | the effect of a report on that belief depends on the belief alone |
| `DeviceView.PollMarksReported` | src/sync/twin_field.h:119-121 | a poll marks the twins it reported as last observed from the device, and no others |
| `DeviceView.SameReportsSameView` | src/sync/reconciler.cpp:334-414 | two runs with the same reports believe the same, whatever controllers did |
| `DeviceView.ObservedIsLastReported` | src/sync/twin_field.h:119-150 | in every run each observed value and the valve is the last one reported, a setpoint the last one reported under its mode, and the unit is reachable iff it answered the last time |
| `RunInvariants.AlignedInEveryRun` | src/sync/reconciler.cpp:337-370 | power, mode and fan stamps are equal in every reachable state |
| `RunInvariants.BoundedInEveryRun` | src/sync/reconciler.cpp:337-370 | with a monotone clock they bound every setpoint stamp and are the time of a past poll or zero |
| `RunInvariants.PowerAndModeTogether` | src/sync/reconciler.cpp:175-188 | in every reachable state a power-on mode write that differs on both axes applies both or neither, decided by the window alone |
| `RunInvariants.PowerAndFanTogether` | src/sync/reconciler.cpp:248-281 | in every reachable state with the unit off, a new fan level by speed or percent starts the unit and remembers a percent of that level, or changes nothing |
| `RunInvariants.SetpointsPassWhenModeDoes` | src/sync/reconciler.cpp:157-164 | in every run, when the last power and mode report is a window ago, so is that of every setpoint |
| `RunInvariants.PromisesKeptInEveryRun` | src/sync/twin_field.h:66-150 | in every reachable state a twin with something in flight and no later write of a controller wants what is in flight |
| `RunInvariants.RunningModeSoundInEveryRun` | src/sync/reconciler.cpp:91-153 | in every reachable state heating or cooling is claimed only of a unit that is on and in a mode that can |
| `RunInvariants.TemperatureDecides` | src/sync/reconciler.cpp:128-152 | with no direction and no valve reported, cooling iff the known indoor temperature is above setpoint plus hysteresis in a mode that cools, heating mirrored |
| `RunInvariants.ValveDecides` | src/sync/reconciler.cpp:105-126 | with the valve reported, it decides whether the unit is active, and mode or indoor temperature which way |
| `RunInvariants.ModeByteDecides` | src/sync/reconciler.cpp:95-101 | a unit that is off does nothing, and one that names its direction in the mode byte runs in it, whatever valve and temperatures say |
| `RunInvariants.PercentTracksFanInEveryRun` | src/sync/reconciler.cpp:258-281 | in every reachable state the remembered percent stands for the wanted or the observed level, and for the wanted one unless the device had the last word |
| `FanConsistency.ConsistentAfterPoll` | src/sync/reconciler.cpp:367-381 | in every reachable state, after a poll of a unit shown on the five fan attributes agree: always after a confirmation or a panel change, as before after an idle or stale poll, and after a contradiction iff the reported level is the wanted one |
| `FanConsistency.FanReadsConsistently` | src/sync/projector.cpp:83-121 | in every reachable state they agree as soon as the wanted and the observed level do, and a unit shown off reads off throughout |
| `FanConsistency.ConsistentUntilSent` | src/sync/reconciler.cpp:258-281 | while a controller owns the fan they agree exactly when its write is not in flight or asks for the level already running |
| `FanConsistency.ClampLeavesFanApart` | src/sync/reconciler.cpp:372-381 | a run of four events after which the speed reads 6 and the percent 33 |
| `FanConsistency.ConfirmationKeepsPercentIff` | src/sync/reconciler.cpp:372-381 | from every state, send and confirming poll settle the level and keep the remembered percent iff the device ran at that level already, does not own the fan, or the percent is the level's own |
| `FanConsistency.ExactPercentSurvival` | src/sync/logical_ac_state.h:117-121 | from every state, in flight or not: a percent write past the guard, any number of idle polls, the send and its confirmation keep the exact percent iff the device ran at that level already, does not own the fan at the send, or the percent is canonical |
| `FanConsistency.RewriteLosesPercent` | src/sync/reconciler.cpp:272-281 | a run in which 45 percent, written on a level already wanted and sent at once, reads 50 after the confirmation |
| `Convergence.Converges` | src/sync/reconciler.cpp:334-473 | from any state, after an atomic hand-over, any number of stale polls and at least one echo, power, mode, fan and active setpoint are observed and wanted as sent with nothing in flight, and no command is pending at any point |
| `Convergence.SettledIsShown` | src/sync/projector.cpp:26-91 | subscribers then read the commanded power, mode, setpoint edges and speed |
| `Convergence.NothingPendingWhileQuiet` | src/sync/reconciler.cpp:416-450 | after a hand-over, polls that move only what is in flight, confirming, stale or contradicting, make no command pending |
| `Convergence.QuietKeepsWishes` | src/sync/reconciler.h:71-73 | such polls, stale ones included, never change what controllers want |
| `Convergence.NoCommandTwiceInARow` | src/airconditioner_manager.cpp:273-295 | in every run, with writes and polls also between take and delivery, two neighbouring sent commands are equal only with a failure between them |
| `Convergence.StepKeepsLastSent` | src/sync/reconciler.cpp:452-481 | only the two command notifications touch the memory of the last command |
| `Convergence.RetriedAfterFailure` | src/sync/reconciler.cpp:475-481 | after a rejection the same command stays pending for as long as the device reports nothing new |
| `Convergence.ForwardedIff` | src/sync/reconciler.cpp:448-449 | until another command is delivered or fails, unsent wishes are forwarded exactly when they differ from the last delivered command |
| `Convergence.PanelOffIsNotUndone` | src/sync/reconciler.cpp:416-450 | from any state settled on a command to run, a panel power-off followed by a controller's power-on leaves the bridge showing on, the device off and nothing to send |
| `PumpRace.EchoesResolve` | src/airconditioner_manager.cpp:278-290 | any number of echoes of a command leaves all six twins as one echo does, whatever was wanted when it was marked in flight |
| `PumpRace.OvertakenForwardedIff` | src/airconditioner_manager.cpp:278-290 | from any state, told from it alone: once the command is echoed, another one is pending iff some axis or setpoint holds an unsent wish and the command was overtaken, the mode included, and it carries every wish |
| `PumpRace.WriteDuringSendIsLost` | src/airconditioner_manager.cpp:278-290 | a fan speed written while a command that leaves the fan alone is on the wire, and nothing else is waiting, stays wanted, is never observed and is not sent, however often the device echoes |
| `PumpRace.StuckSpeedTravelsAlong` | src/airconditioner_manager.cpp:278-290 | when the power was overtaken too, on a command that changed it, the stuck speed is sent with it |
| `Subscriber.SubscribersStayUpToDate` | src/sync/projector.cpp:137-228 | over any run of writes, bundles and polls a client that re-reads exactly the reported attributes holds the current projection |
| `Subscriber.ReportExact` | src/sync/projector.cpp:160-228 | an attribute is reported iff its reading changed, none twice; only SystemMode is also reported when the mode of a unit shown off changes |
| `Subscriber.UnreportedUnchanged` | src/sync/aai_translation.h:38-51 | an unreported attribute reads as before, SystemMode as computed from power and mode included |
| `Subscriber.SensorReadings` | src/sync/reconciler.cpp:403-414 | in every run subscribers read indoor and outdoor temperature and humidity as last reported, and nothing before the first report |
| `Subscriber.BootReadings` | src/sync/logical_ac_state.h:37-51 | the whole projection before anything happened |
| `Subscriber.FirstCommand` | src/sync/logical_ac_state.h:39-43 | the command that the first system-mode write makes pending, with the boot setpoint of each mode |
| `Subscriber.ReachableReading` | src/sync/bridge_kernel.h:65 | in every run the unit reads reachable iff it answered the last time it was tried |
| `Subscriber.RunningReading` | src/sync/projector.cpp:57-62 | a unit that reads off reads as doing nothing, one that reads on as doing what the poll's mode byte said |
| `Subscriber.SourceAfterWrite` | src/sync/projector.cpp:74-81 | a write that changes the setpoint in charge of the observed mode makes the setpoint source a controller, whatever mode is wanted, and no other write changes it |
| `Subscriber.SourceAfterPoll` | src/sync/projector.cpp:74-81 | a poll that confirms a setpoint in flight or repeats the old one keeps its source, any other that carries a setpoint makes it the device |
| `Subscriber.SendingTakesReadingBack` | src/sync/reconciler.cpp:452-473 | handing over a command leaves the whole projection as it was iff no write is waiting with nothing in flight on power, mode, the fan of a unit shown on, or the wanted mode's setpoint where it is shown |
| `Bundles.BundleIsSequenceUpToCentre` | src/sync/reconciler.cpp:294-332 | for every list of writes a bundle equals the plain sequence, except that in Auto with both edges the centre is what one write of the last pair's middle makes of it |
| `Bundles.AutoIsSeparate` | src/sync/reconciler.cpp:168-281 | in Auto an edge touches only the centre and every other write neither reads nor writes it |
| `Bundles.OverriddenEdgeIsIgnored` | src/sync/reconciler.cpp:298-306 | an edge overridden by a later one of its kind, wherever it stands, has no effect |
| `Bundles.EdgePulls` | src/sync/reconciler.cpp:199-211 | an edge write past the guard lands the centre in the middle of the new edge and the other wanted edge, to the rounding |
| `Bundles.BundleTranslatesBand` | src/sync/reconciler.h:75-79 | moving both edges of the wanted band by the same amount moves the centre by exactly that amount |
| `Bundles.SequenceFallsShort` | src/sync/reconciler.cpp:200-203 | the two edge writes one by one, in either order and for any distance, reach the new centre iff it is at most three hundredths nearer to zero than the old one; from zero up the end point is given in closed form |
| `Bundles.BundleArrives` | src/sync/reconciler.cpp:308-318 | the same two writes as a bundle reach it from anywhere |
| `AutoBand.Contraction` | src/sync/reconciler.cpp:199-211 | any mix of n heat and cool writes for the centre y takes the wanted centre from x to exactly y + floor((x - y) / 2^n), from zero up |
| `AutoBand.ContractionAnySign` | src/sync/reconciler.cpp:230-238 | with any signs it ends within the distance divided by 2^n, rounded up |
| `AutoBand.FifteenWritesArrive` | src/sync/reconciler.cpp:230-238 | fifteen or more such writes end on y from above and on y - 1 from below |
| `AutoBand.HandleSetpointRaiseLower` | src/sync/command_router.cpp:56-89 | the command reads, moves and writes the edges in turn, the second read seeing the first write; an unknown mode is rejected and changes nothing |
| `AutoBand.WithinLimits` | src/sync/setpoint_math.h:28-34 | the moved setpoint is within the limits and as close to the one asked for as they allow |
| `AutoBand.RaiseLowerOutsideAuto` | src/sync/command_router.cpp:56-89 | outside Auto each edge the command names is wanted ten times the amount further, within its limits, and nothing else changes |
| `AutoBand.RaiseLowerInAuto` | src/sync/command_router.cpp:56-89 | in settled Auto, when the limits do not cut short the edges it moves, both edges move the centre by ten times the amount, one edge by five times, and nothing else changes |
| `S21Frame.ComputeChecksum` | src/s21/s21_frame.cpp:13-26 | the two loops compute the wrapped byte sum, plus two when it is reserved |
| `S21Frame.Encode` | src/s21/s21_frame.cpp:28-37 | the frame is STX, payload, checksum, ETX |
| `S21Frame.Decode` | src/s21/s21_frame.cpp:39-60 | the payload, or the first of the four errors that applies |
| `S21Frame.ChecksumAvoidsReserved` | src/s21/s21_frame.cpp:11-26 | no checksum is a control byte |
| `S21Frame.FramedParts` | src/s21/s21_frame.cpp:28-37 | the frame byte by byte: 0x02, the payload, its checksum, 0x03 |
| `S21Frame.CodecExact` | src/s21/s21_frame.cpp:28-60 | decoding accepts exactly the frames of non-empty payloads and the two undo each other |
| `S21Frame.SingleByteCollision` | src/s21/s21_frame.cpp:11-26 | payloads of any length differing in one byte share a checksum iff their sums are a reserved value and that plus two |
| `S21Frame.SingleByteCorruption` | src/s21/s21_frame.cpp:39-57 | decoding a frame with one payload byte changed gives a checksum error, or the changed payload exactly in those collisions |
| `S21Frame.CollisionExists` | src/s21/s21_frame.cpp:11-26 | a concrete corruption that is accepted |
| `S21Frame.StreamRoundTrip` | src/s21/s21_datalink_uart.cpp:181-201 | ACK, frame and any trailing bytes, cut at the first ETX or NAK in a 32-byte buffer and decoded, give the payload iff it has 1 to 28 bytes and neither stop byte |
| `S21Frame.BareReplyRoundTrip` | src/s21/s21_datalink_uart.cpp:471-481 | the same without the ACK in front, for 1 to 29 bytes |
| `S21DataLinkUart.UartDriver.Start` | src/s21/s21_datalink_uart.cpp:168-236 | a call takes the lock, sets its stop bytes, arms the machine with no event or result left over and transmits the frame of its payload, or is answered busy at once and transmits nothing |
| `S21DataLinkUart.UartDriver.HandleInterrupt` | src/s21/s21_datalink_uart.cpp:266-396 | one interrupt with any set of events is the four handlers in their fixed order |
| `S21DataLinkUart.UartDriver.HandleEndRx` | src/s21/s21_datalink_uart.cpp:287-351 | an end of reception delivers a timeout or a reply, or is stale |
| `S21DataLinkUart.UartDriver.HandleReply` | src/s21/s21_datalink_uart.cpp:303-345 | the result is queued first; a good transact reply goes on to send its ACK with channel A off, anything else completes |
| `S21DataLinkUart.UartDriver.SendAck` | src/s21/s21_datalink_uart.cpp:328-340 | the ACK is transmitted with channel A off and no end of transmission left over |
| `S21DataLinkUart.UartDriver.HandleError` | src/s21/s21_datalink_uart.cpp:353-377 | a line error ends a waiting transaction and nothing else |
| `S21DataLinkUart.UartDriver.HandleEndTx` | src/s21/s21_datalink_uart.cpp:379-395 | the end of the ACK restores channel A and completes |
| `S21DataLinkUart.UartDriver.RunCompletion` | src/s21/s21_datalink_uart.cpp:421-486 | the result leaves the queue, the lock is released and the holder's callback fires once with its outcome |
| `S21DataLinkUart.ExactlyOnceInEveryRun` | src/s21/s21_datalink_uart.h:23-26 | for any sequence of calls, hardware events, interrupts and completions: at most one put and one submission per transaction, no overflow, no empty queue at completion, channel A off exactly while the ACK goes out, and calls = callbacks + lock held |
| `S21DataLinkUart.InterruptKeeps` | src/s21/s21_datalink_uart.cpp:266-396 | any subset of simultaneous events keeps all of that |
| `S21DataLinkUart.LockIsReleased` | src/s21/s21_datalink_uart.cpp:421-486 | from every reachable state that holds the lock, an end of reception, an end of transmission and a completion answer the caller exactly once and free the lock |
| `S21DataLinkUart.ResultWaits` | src/s21/s21_datalink_uart.cpp:266-396 | between the end of reception and the completion no event, interrupt or busy call touches the queued result |
| `S21DataLinkUart.ExchangeAnswers` | src/s21/s21_datalink_uart.cpp:266-486 | for any events in any number of interrupts up to the one that ends the reception, and any events and calls after it, the completion gives the caller one verdict, in which a timeout beats the bytes received and the bytes beat a line error that comes with them |
| `S21DataLinkUart.VerdictMeans` | src/s21/s21_datalink_uart.cpp:398-486 | the verdict in the callback's terms: timeout, line error, no byte, NAK, and else the ACK or the decoded frame or its error |
| `S21DataLinkUart.ExchangeTransmits` | src/s21/s21_datalink_uart.cpp:198-236 | from any state with a free lock and for any events: one frame goes out, whose payload is the request iff that has 1 to 29 bytes, then the byte 0x06 iff a transact ended its reception with no frame timeout, no watchdog and no NAK match, and nothing more up to and in the completion |
| `S21DataLinkUart.ReplyReachesCaller` | src/s21/s21_datalink_uart.cpp:459-482 | through call, interrupts and completion the caller of a transact receives the device's payload iff no timeout struck and it has 1 to 28 bytes and neither stop byte |
| `S21DataLinkUart.AckReachesCaller` | src/s21/s21_datalink_uart.cpp:442-458 | a send is acknowledged iff no timeout struck and the first byte back is the ACK |
| `S21Presentation.TempByteRoundTrip` | src/s21/s21_presentation.cpp:12-23 | every temperature byte survives the trip through a setpoint, in 8-bit arithmetic |
| `S21Presentation.QuantisedSetpoint` | src/s21/s21_presentation.cpp:12-31 | a setpoint in range comes back moved toward 18 degrees by less than half a degree, exactly when on the grid, and a second trip changes nothing |
| `S21Device.CommandObeyed` | src/s21/s21_presentation.cpp:25-48 | a unit that reads requests in the protocol's numbers does, on any composed command in range, what was asked in power, mode and fan, at the half degree next to the setpoint on the side of 18 degrees |
| `S21Device.OutOfRangeNotSent` | src/s21/s21_presentation.cpp:28-31 | a setpoint outside 10 to 32 degrees, and no other, is refused |
| `S21Device.ReportRead` | src/s21/s21_presentation.cpp:101-114 | a unit asked for its operation reports what it does, and the bridge reads that |
| `S21Device.ModeByteMeans` | src/s21/s21_presentation.cpp:107-108 | what each power and mode byte of a report means to the kernel, with 0x30 and 0x37 as Auto cooling and Auto heating |
| `S21Device.OtherReportsRefused` | src/s21/s21_presentation.cpp:85-99 | a response is refused iff it does not start with G1 |
| `S21Device.WireRoundTrip` | src/s21/s21_presentation.cpp:25-48 | every composed command in range, taken by such a unit, reported in a framed reply, cut and parsed, has the same power, mode and fan and the quantised setpoint |
| `S21Device.SendCommands` | src/s21/s21_datalink_uart.cpp:168-179 | a send of the command from any state with a free lock puts a frame on the line that makes the unit do what was asked, whatever the hardware does |
| `S21Presentation.UnnamedIffUnlisted` | src/s21/s21_presentation.cpp:101-114 | any six-byte report that survives the line parses to a mode or fan that names nothing iff its byte is none of the seven, and the kernel takes it for Auto |
| `S21Presentation.UnnamedBytesArrive` | src/s21/s21_presentation.cpp:101-114 | a concrete framed report with mode byte 0x35 and fan byte 0x40 does |
| `S21Presentation.BytesReturn` | src/s21/s21_presentation.h:14-32 | a mode or fan byte that was reported is sent back as it was, named or not |
| `WireLoop.LoopOutcome` | src/s21/s21_manager.cpp:221-229 | manager cache, device and kernel together, after an acknowledged command and any polls: settled on the command while the cache serves, on the device's version when it is read after that, and for an off-grid setpoint apart when only the device is read; and exactly when another command is pending |
| `WireLoop.TimingDecides` | src/s21/s21_manager.cpp:36-57 | of polls in the order of time, the first decides whether the cache is ever served and the last whether the device is |
| `WireLoop.LoopSettlesIff` | src/airconditioner_manager.cpp:205-240 | once there was a reading, the loop stands settled on the command iff the setpoint is a multiple of 50, or the mode carries none, or every reading so far came from the cache |
| `WireLoop.SettlesEverIff` | src/airconditioner_manager.cpp:205-240 | it is settled at some point iff the setpoint is a multiple of 50, or the mode carries none, or the first poll comes within the cache's age after the acknowledgement |
| `S21Manager.CommandCapability.RecordSuccess` | src/s21/s21_manager.cpp:21-25 | a success makes the command supported and forgets its failures |
| `S21Manager.CommandCapability.RecordFailure` | src/s21/s21_manager.cpp:27-31 | failures count only until a success, and beyond the threshold rule the command out |
| `S21Manager.CommandCapability.CallWithTracking` | src/s21/s21_manager.h:133-142 | a ruled-out command is answered without the bus, any other goes to it and is recorded |
| `S21Manager.ReadThroughCache.Lookup` | src/s21/s21_manager.cpp:36-44 | a value at most maxAge old is a hit |
| `S21Manager.ReadThroughCache.Fill` | src/s21/s21_manager.cpp:45-56 | a successful fetch is kept with the time before it, a failed one leaves the old value |
| `S21Manager.ReadThroughCache.Update` | src/s21/s21_manager.h:159-164 | a direct write is kept with the time of the write |
| `S21Manager.Orchestrator.constructor` | src/s21/s21_manager.cpp:68-88 | empty caches, untried commands, not ready |
| `S21Manager.Orchestrator.Init` | src/s21/s21_manager.cpp:90-127 | ready once the protocol version was answered, and from then on; the major version is that of the extended query where a unit of version 2 or more answers it |
| `S21Manager.Orchestrator.GetCachedOperation` | src/s21/s21_manager.cpp:72-73 | the operation from the cache while fresh, else from the bus |
| `S21Manager.Orchestrator.GetCachedCoarse` | src/s21/s21_manager.cpp:74-83 | the coarse reading, tracked by its capability only on a miss |
| `S21Manager.Orchestrator.GetCachedFan` | src/s21/s21_manager.cpp:84-87 | the fan reading, tracked by its capability only on a miss |
| `S21Manager.Orchestrator.GetOperation` | src/s21/s21_manager.cpp:131-148 | a running unit that says Auto is cross-checked, with a clock reading of its own, and the cross-check wins when it answers |
| `S21Manager.Orchestrator.GetOnOff` | src/s21/s21_manager.cpp:150-156 | the power of the cached operation, or not ready |
| `S21Manager.Orchestrator.GetFanMode` | src/s21/s21_manager.cpp:176-184 | the fan reading, or with a later clock reading the operation's fan when that fails |
| `S21Manager.Orchestrator.GetRoomTemperature` | src/s21/s21_manager.cpp:186-195 | the precise sensor, or the coarse reading when it does not answer |
| `S21Manager.Orchestrator.GetOutdoorTemperature` | src/s21/s21_manager.cpp:197-206 | the same for the outdoor sensor |
| `S21Manager.Orchestrator.GetHumidity` | src/s21/s21_manager.cpp:208-217 | the same for humidity |
| `S21Manager.Orchestrator.GetUnitState` | src/s21/s21_manager.cpp:247-254 | tracked and uncached |
| `S21Manager.Orchestrator.SetFields` | src/s21/s21_manager.cpp:221-262 | all four setters: a partial one edits the cached operation, and only an accepted command is cached, with the time of acceptance |
| `ManagerProperties.CapabilityBound` | src/s21/s21_manager.cpp:16-31 | over any run of requests the failure count is 0 when supported, at most 3 when unknown and 4 when unsupported |
| `ManagerProperties.CapabilityAbsorbing` | src/s21/s21_manager.cpp:16-31 | supported and unsupported are final, unsupported down to the last bus call |
| `ManagerProperties.AtMostFourTries` | src/s21/s21_manager.h:117-143 | a command that never succeeded reached the bus at most four times, through direct calls and caches together |
| `ManagerProperties.CrossCheckWins` | src/s21/s21_manager.cpp:131-148 | the full operation is the cached or read one, with the fan replaced by the fan command's answer exactly for a running unit that says Auto, when there is an answer |
| `ManagerProperties.FanFallsBack` | src/s21/s21_manager.cpp:176-184 | the fan is that of its own command, or the operation's when that fails |
| `ManagerProperties.SetterAnswers` | src/s21/s21_manager.cpp:221-262 | a partial setter passes on the error of the read it starts from, and every setter otherwise the device's answer |
| `ManagerProperties.SensorsFallBack` | src/s21/s21_manager.cpp:186-217 | each sensor is that of its own command, or its field of the coarse reading when that fails |
| `ManagerProperties.SensorTraffic` | src/s21/s21_manager.cpp:186-217 | a sensor reading calls its own command once unless ruled out, the coarse one through its cache exactly when there was no answer, and touches nothing else |
| `ManagerProperties.OtherTraffic` | src/s21/s21_manager.cpp:131-184 | the unit state is asked every time, the fan command through its cache always for a fan reading and exactly for a running unit on Auto for an operation reading |
| `ManagerProperties.AgreementAfter` | src/s21/s21_manager.cpp:36-57 | what each request, panel change and lost acknowledgement does to the agreement of cache and device, as an iff for every state |
| `ManagerProperties.LostAckKeepsAgreementIff` | src/s21/s21_manager.cpp:221-229 | a setter that the device takes while its acknowledgement is lost keeps the agreement iff it changes nothing at the device, or is a full one and nothing was cached |
| `ManagerProperties.NextSetterAfterLostAck` | src/s21/s21_manager.cpp:231-245 | the next partial setter edits the operation from before the lost acknowledgement while the cache is fresh, and the device's own otherwise |
| `ManagerProperties.CacheTransparent` | src/s21/s21_manager.cpp:36-57 | for a device that changes only by acknowledged setters, a cached operation is the device's up to the steps of the wire, in every run |
| `ManagerProperties.GettersTransparent` | src/s21/s21_manager.cpp:150-172 | so a getter's answer is the device's power, mode and fan, and its setpoint too iff the cache is not served, or was filled from the device, or the last accepted setpoint is a multiple of 50 |
| `ManagerProperties.AcceptedSetterActs` | src/s21/s21_manager.cpp:221-262 | in every undisturbed run an accepted setter leaves the device with the requested field, the setpoint in the device's steps, and the other three as they were; a full one with all four; and the cache with the same |
| `ManagerProperties.SettersActAsFieldUpdates` | src/s21/s21_manager.cpp:221-262 | any sequence of full and partial setters acts on the device as the fold of single-field updates of the calls that succeeded |
| `ManagerProperties.SetterResult` | src/s21/s21_manager.cpp:221-262 | a setter that succeeds leaves device and cache at the operation it sent, one that fails leaves the device alone unless only the acknowledgement was lost |
| `ManagerProperties.CacheDatedInEveryRun` | src/s21/s21_manager.h:159-164 | with any panel changes and lost acknowledgements, the cached operation was the device's at its timestamp |
| `ManagerProperties.ReadIsRecent` | src/s21/s21_manager.cpp:36-57 | so a returned operation was the device's at most maxAge earlier |

## Left out

- AutoBand.RaiseLowerInAuto: assumes that no limit clamps an edge it moves; WithinLimits gives the clamp itself, and its effect on the centre is not summarised.
- AutoBand.Contraction: the exact end point is for non-negative setpoints, as truncating division rounds the other way below zero; ContractionAnySign bounds it for all.
- FanConsistency.FanReadsConsistently: assumes percent writes of 1 to 100, which the attribute layer guarantees (`src/sync/aai_fan_control.cpp:62-72`).
- S21Presentation.ParseOperation: takes responses of at least six bytes; the firmware indexes six bytes without checking, and what it reads beyond a shorter response is not modelled.
- WireLoop.LoopOutcome: assumes that the cross-check of a unit running on Auto, if it answers, does not name another fan mode, and that no write lands during the polls.
- ManagerProperties.SettersActAsFieldUpdates: for runs without panel changes and lost acknowledgements; what those do is stated step by step in AgreementAfter and NextSetterAfterLostAck.
- Within one entry point of the reconciler the clock is read once; in the source two guards of one write may read it a millisecond apart. Overflow of the 64-bit clock is not modelled.
- Frames longer than the 32-byte transmit buffer are truncated here as in the firmware; all that is stated of them is that they do not decode to the request.
- Weak-memory effects and the interleavings inside a call or a completion after the lock changed hands: each is one step.
- Empty callbacks, Zephyr and nrfx calls, interrupt enabling and the DPPI set-up beyond the event flags, the queue, channel A and the lock.
- The cross-check of Auto against the fan reading is modelled in the getters but is not part of the transparency results, since a setter does not refresh the fan cache.
- The operating-mode and setpoint getters of the manager, which have the shape of the power getter, and the minor protocol version, which is only logged.
- The unit in S21Device is built from the bytes the firmware writes and reads; what else a real unit refuses or reports is not known to it.
- Locking in the coordinator, the change publisher, the attribute access layers and their address tables, the commands of the OnOff cluster, shells, LEDs and buttons.
- Sensor digit and version decoders.
