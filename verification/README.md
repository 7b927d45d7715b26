# Verified models of the appliance-control projects

Dafny models of the control cores of four embedded projects, with proofs about them:

- **Field-oriented control** (`FixedPoint`, `Trig`, `Accuracy`, `SeriesTables`,
  `AnnouncedAccuracy`, `Foc`): Q16.16 arithmetic, range-reduced Maclaurin sine and cosine and
  their accuracy, the Clarke and Park transforms and their inverses.
- **CAN bus** (`CanFrame`, `CanRing`): the Q8.8 telemetry codec and the lock-free
  single-producer single-consumer ring.
- **PID** (`Pid`): the controller with its anti-windup clamp.
- **Batch mixer** (`Mixer`, `BatchController`, `Watchdog`): the six-state batch controller with
  its components, and the pressure watcher thread that races with `acknowledge`.
- **HiL testbed** (`Hil`, `ClosedLoop`): controller state machine and simulated plant, joined by a
  network that loses, delays, reorders and repeats messages.
- **MQTT client** (`MqttLength`, `MqttStream`, `MqttFilter`): length codec, packet framing over short
  reads and writes, topic filters.
- **Washer** (`Washer`): the worker thread of the washing cycle against its operator calls.

`dafny verify dfyconfig.toml` checks everything; no file depends on anything outside this directory.

## How the model reads the sources

- C's `int32_t` is the subset type `q16`. A narrowing cast wraps (`Wrap32`); `>>` is floor division;
  `/` truncates toward zero (`TruncDiv`). Signed overflow of an addition is undefined in C, so the
  transform methods require that their own additions fit, and `Foc.RoundTrip` discharges these
  requirements for all currents up to 2^28. The wrap-around of the MQTT length decoder is explicit.
- Floating-point numbers are `real`. Noise draws, sensor readings, `1 - exp(-dt/tau)` and `sin(t)`
  are arbitrary inputs; where a theorem needs a bound on them it says so.
- Objects that the sources update in place are classes; each method is proved against a function on
  values, and the theorems are about those functions. Threads are state machines that interleave at
  the granularity of single shared accesses (one byte a step for the frames in the CAN ring), under
  sequential consistency.
- The real sine, in `Accuracy`, is any function with six textbook facts: odd, symmetric about pi/2, no
  steeper than its argument, within half the squared distance of its tangents, and, like its complement,
  between consecutive Maclaurin polynomials on [0, 0.8].
- A thrown `logic_error` is a `false` result. Reading past the end of a packet body is the outcome
  `OutOfBounds`.

## Where the code and its documentation disagree

The model follows the code.

- The CAN header and REQ-003 announce +-200 Nm; the code clamps at +-127 Nm (`CanFrame.TorqueAccuracy`,
  `CanFrame.AnnouncedRangeIsLost`).
- `pid.h` gives the integrator the range [clamp_min/ki, clamp_max/ki]; the code uses +-clamp_max/ki
  (`Pid.AnnouncedRange`, `Pid.OneSidedClamp`), and +-1000000 for gains up to 1e-9 (`Pid.SmallGain`). A
  comment in `pid.c` takes the derivative on the measurement; the code takes it on the error
  (`Pid.DerivativeKick`).
- `transforms.h` announces an error below 2 LSB over [-pi, pi]. For the sine this is proved on [0, pi] and
  beyond, down to -51597, and from -132000 to -57945 and -pi to -166567 (`AnnouncedAccuracy.SinWithinTwo`). It
  fails at -51598, so the first interval cannot be extended (`AnnouncedAccuracy.SinAccuracyExact`), and at
  -160493 (`Accuracy.AnnouncedAccuracyFails`). Between the three intervals single angles are open; the error
  there is below 3.318 LSB (`Accuracy.SinAccuracyOneTurn`). For the cosine it is proved from -102943 to 52801
  and fails at 52802 (`AnnouncedAccuracy.CosAccuracyExact`); outside, single angles are open.
- REQ-001 asks for a beta current within 2 LSB or 0.001 A of the reference. The rounded root of three breaks
  the first from a sum of 618259 on, the second from 39866119 on (`Foc.ClarkeAccuracyExact`).
- `docs/hil.md` asks for five consecutive valid frames; the code counts valid frames and ignores gaps
  (`Hil.GapsAreIgnored`; `Hil.AgreesIffNoGap` says exactly when the two agree). In the program itself gaps
  cannot occur (`ClosedLoop.ValidIffDelivered`), but one frame is counted as often as it is read
  (`ClosedLoop.OneMessageSuffices`).
- The MQTT filter test omits the parent level of section 4.7.1.2 of MQTT 3.1.1 and the rule on dollar
  topics of section 4.7.2, and compares `+` literally although its comment says that it matches one level
  (`MqttFilter.DepartureFromStandard`, `MqttFilter.PlusIsLiteral`; inputs in `MqttFilter.ParentIsMissed`,
  `MqttFilter.DollarIsMatched`, `MqttFilter.PlusIsMissed`).
- QoS 1 messages carry a packet identifier that the receiving side does not skip, and topics beyond
  65535 bytes are cut (`MqttStream.SinglePublish`, `MqttStream.QosOneExample`).
- The pressure latch is documented to be reset only below the threshold; a pending `acknowledge` clears
  it after the pressure has risen again (`Watchdog.LatchRace`, `Watchdog.LatchSurvives`).
- An `emergencyStop()` of the washer that is overtaken between its two statements lets the cycle skip a
  phase and complete (`Washer.OvertakenStopCompletes`); no other cycle completes without its conditions
  (`Washer.CompletedIffNotOvertaken`).

## Model

| member | source | states |
|---|---|---|
| Trig.SinRawError | bare_metal_foc/src/transforms.c:11-21 | on [0, pi/4] the floored series is within 3 LSB of the exact degree-7 Maclaurin polynomial, with one-sided bounds of -1.02 and +2.14 LSB |
| Trig.CosRawError | bare_metal_foc/src/transforms.c:23-31 | the same for the degree-6 cosine polynomial: -1.06 and +2.01 LSB |
| Trig.SeriesRange | bare_metal_foc/src/transforms.c:11-31 | both series stay in [0, 65536] on [0, pi/4] |
| Trig.PolyNorm | bare_metal_foc/src/transforms.c:11-31 | the two truncated polynomials miss the unit circle only inwards and by less than 7.3e-6, so the coefficients belong together |
| Trig.QuarterLipschitz | bare_metal_foc/src/transforms.c:45-49 | the quarter wave glued from the two series at pi/4 moves at most 1.02 LSB a tick plus half an LSB at the joint |
| Trig.Reduce | bare_metal_foc/src/transforms.c:36-38 | the two reduction loops end for every 32-bit angle, never leave 32 bits, and compute the angle modulo Q16_TWO_PI |
| Trig.SinApprox | bare_metal_foc/src/transforms.c:33-52 | for every 32-bit angle the branch structure computes the signed quarter wave of the folded angle, calls the series only on [0, pi/4], and stays in [-1.0, 1.0] |
| Trig.CosApprox | bare_metal_foc/src/transforms.c:54-58 | cosine is the sine of the complement, whenever that difference fits in 32 bits |
| Trig.SinPeriodic | bare_metal_foc/src/transforms.c:36-38 | sine and cosine are exactly periodic in Q16_TWO_PI |
| Trig.SinHalfTurn | bare_metal_foc/src/transforms.c:40-41 | adding Q16_PI to an angle in [0, pi) negates the result exactly |
| Trig.FoldsComplementary | bare_metal_foc/include/foc_types.h:13-16 | although 2*Q16_PI_OVER_2 = Q16_PI + 1 and Q16_TWO_PI = 2*Q16_PI + 1, the quarter-wave arguments of sine and cosine add up to pi/2 with an error of -2, 0 or 1 tick |
| Trig.SinCosNorm | bare_metal_foc/src/transforms.c:33-58 | for every angle sin^2 + cos^2 differs from 2^32 by at most 2^20 |
| Accuracy.SinAccuracy | bare_metal_foc/src/transforms.c:33-52 | for every 32-bit angle the result is within 3.15 LSB of the sine, plus 0.168 LSB for each turn taken off by the reduction; for any function with the six textbook facts `IsSine` |
| Accuracy.CosAccuracy | bare_metal_foc/src/transforms.c:54-58 | the same for the cosine with 3.45 LSB |
| Accuracy.SinAccuracyOneTurn | bare_metal_foc/include/transforms.h:35 | over [-pi, pi] the error is below 3.318 LSB |
| SeriesTables.SinErrorBelowTwo | bare_metal_foc/src/transforms.c:11-21 | on all of [0, pi/4] the floored series exceeds its polynomial by less than 2 LSB, which needs the coincidences of its three divisions |
| AnnouncedAccuracy.SinWithinTwo | bare_metal_foc/include/transforms.h:35 | the announced 2 LSB hold from -51597 to pi, so on all of [0, pi], from -132000 to -57945 and from -pi to -166567 |
| AnnouncedAccuracy.SinAccuracyExact | bare_metal_foc/include/transforms.h:35 | they hold on a whole interval [least, pi] exactly if its left end is at least -51597 |
| Accuracy.AnnouncedAccuracyFails | bare_metal_foc/include/transforms.h:35 | they are exceeded at the angle -160493 |
| AnnouncedAccuracy.CosWithinTwo | bare_metal_foc/include/transforms.h:35 | for the cosine they hold from -102943 to 52801 |
| AnnouncedAccuracy.CosAccuracyExact | bare_metal_foc/include/transforms.h:35 | on a whole interval [-102943, most] they hold for the cosine exactly if its right end is at most 52801 |
| Foc.ClarkeInvClarke | bare_metal_foc/src/transforms.c:65-116 | without rotation, vc is -(ia+ib) or one more, for all currents up to 2^28 |
| Foc.ClarkeAccuracy | bare_metal_foc/src/transforms.c:65-71 | against (ia+2ib)/sqrt(3), the computed beta current loses less than 1 LSB to truncation plus 1.6188 parts in a million of the sum to the rounded root, always toward zero |
| Foc.ClarkeAccuracyExact | bare_metal_foc/docs/REQUIREMENTS.md:7 | the required 2 LSB hold for all currents with a sum ia+2ib up to a limit exactly if the limit is at most 618258, and the required 0.001 A exactly up to 39866118 |
| Foc.InvParkOfPark | bare_metal_foc/src/transforms.c:77-99 | inverse Park of Park at the same angle returns i_alpha within 5 + abs(i_alpha)/4096 LSB and i_beta within 6 + abs(i_beta)/4096 LSB, and the rotated currents fit in 32 bits |
| Foc.Clarke | bare_metal_foc/src/transforms.c:65-71 | writes i_alpha and the truncated quotient i_beta and nothing else, also when input and output are one object |
| Foc.Park | bare_metal_foc/src/transforms.c:77-86 | writes the rotated currents and nothing else; against the sine itself they are the currents turned back by position/65536 of a full turn, within 2 LSB plus 5/65536 of the inputs |
| Foc.InvPark | bare_metal_foc/src/transforms.c:91-99 | writes the voltages and nothing else; against the sine itself they are turned forward by position/65536 of a full turn, within the same bound |
| Foc.InvClarke | bare_metal_foc/src/transforms.c:107-118 | writes va and returns vc; phase b is stored nowhere |
| Foc.RoundTrip | bare_metal_foc/src/transforms.c:65-118 | Clarke, Park, inverse Park, inverse Clarke return ia within 5 + abs(ia)/4096 LSB and -(ia+ib) within 10 + (abs(ia)+abs(ib))/4096 LSB for every encoder position and all currents up to 2^28, with no addition leaving 32 bits |
| CanFrame.Pack | bare_metal_foc/src/can_frame.c:9-36 | refuses a null frame, writes exactly the frame of the clamped telemetry, and answers 0 exactly for torques in [-127, 127] and -2 otherwise |
| CanFrame.FrameLayout | bare_metal_foc/include/can_frame.h:7-11 | identifier 0x181, eight bytes, torque and speed with the high byte first in their announced places, reserved bytes zero |
| CanFrame.Unpack | bare_metal_foc/src/can_frame.c:38-53 | refuses a null frame and decodes the eight data bytes |
| CanFrame.UnpackOfPack | bare_metal_foc/src/can_frame.c:9-53 | charge and speed come back exactly, torque clamped and rounded toward zero to a multiple of 1/256, for positive and negative values |
| CanFrame.TorqueAccuracy | bare_metal_foc/include/can_frame.h:23-27 | the torque comes back within 1/256 exactly if it exceeds 127 in magnitude by less than 1/256; the announced range of 200 is not met |
| CanFrame.AnnouncedRangeIsLost | bare_metal_foc/include/can_frame.h:23-27 | 150 Nm is sent as 127 Nm with status -2 |
| CanFrame.PackOfUnpack | bare_metal_foc/src/can_frame.c:9-53 | re-encoding a decoded frame reproduces it byte for byte exactly if it is well formed |
| CanRing.CanBus.Send | bare_metal_foc/src/can_sim.c:13-20 | called alone, a step of the FIFO of capacity 63: appends, or answers -1 exactly when full |
| CanRing.CanBus.Recv | bare_metal_foc/src/can_sim.c:22-28 | called alone, a step of the FIFO: delivers the oldest frame, or answers -1 exactly when empty and leaves the buffer |
| CanRing.ProducerKeepsInv | bare_metal_foc/src/can_sim.c:13-20 | every single memory access of the sender keeps the ring invariant against a receiver at any point |
| CanRing.ConsumerKeepsInv | bare_metal_foc/src/can_sim.c:22-28 | every single memory access of the receiver keeps it against a sender at any point |
| CanRing.RingIsFifo | bare_metal_foc/src/can_sim.c:13-28 | for every interleaving the events form a legal history of one FIFO of capacity 63, and the received frames are an untorn prefix of the sent ones |
| CanRing.NeverTheSameSlot | bare_metal_foc/src/can_sim.c:13-28 | the two threads never copy to and from the same slot at the same time |
| CanRing.SendRefusesWhenFull | bare_metal_foc/src/can_sim.c:15-16 | the sender answers -1 exactly if 63 frames are in flight when it reads the other index |
| CanRing.RecvRefusesWhenEmpty | bare_metal_foc/src/can_sim.c:24 | the receiver answers -1 exactly if nothing was in flight when it read the other index |
| CanRing.SenderAdvances | bare_metal_foc/src/can_sim.c:13-20 | each access of the sender is one more of the same call for the same frame, or ends it with exactly one event, and touches nothing of the receiver |
| CanRing.ReceiverAdvances | bare_metal_foc/src/can_sim.c:22-28 | the same for the receiver |
| CanRing.CallsReturn | bare_metal_foc/src/can_sim.c:13-28 | neither side waits for the other: under every interleaving a send returns within 18 accesses of its own and a receive within 19 |
| Pid.Controller.Update | bare_metal_foc/src/pid.c:16-41 | the new integrator is the saturated sum, the previous error is replaced, the answer is the one the laws below speak about and lies within its clamps |
| Pid.Controller.Replay | bare_metal_foc/src/pid.c:16-41 | a whole history of updates leaves the fold of its error increments in the integrator, and its last answer is a function of the history |
| Pid.PidLaw | bare_metal_foc/src/pid.c:16-41 | from reset, for every history whose integral stays within its limits, the answer is kp times the error plus ki times the integral of all errors plus kd times the last change over dt, limited to the output range |
| Pid.SteadyError | bare_metal_foc/src/pid.c:16-41 | the n-th update with one and the same error answers kp e + ki n e dt |
| Pid.Sensitivity | bare_metal_foc/src/pid.c:16-41 | two errors after one history differ in their answers by kp + ki dt + kd/dt times their difference |
| Pid.SaturatingSum | bare_metal_foc/src/pid.c:23-29 | the integrator equals the plain sum of the errors since its last saturation, starting from the limit reached there |
| Pid.IntegralBounded | bare_metal_foc/src/pid.c:25-29 | the integrator never leaves its limits |
| Pid.Nonexpansive | bare_metal_foc/src/pid.c:23-29 | two controllers fed the same errors never move apart |
| Pid.ComesDown | bare_metal_foc/src/pid.c:23-29 | after any history, downward increments lower the integrator by their full sum from the limit, or reach the opposite limit |
| Pid.UnwindTime | bare_metal_foc/src/pid.c:23-29 | the number of steps to unwind does not depend on how long the integrator was saturated |
| Pid.Coupling | bare_metal_foc/src/pid.c:23-29 | increments of one sign drive all integrators within the limits to one value exactly if they add up to the width of the range, and then to the limit they point to |
| Pid.SaturationForgets | bare_metal_foc/src/pid.c:23-29 | after such increments the integrator is the same for every past, now and for every future |
| Pid.AnnouncedRange | bare_metal_foc/include/pid.h:18-20 | for every positive gain, the announced integrator range holds for all histories exactly if clamp_min <= -clamp_max, or for gains up to 1e-9 exactly if it contains +-1000000 |
| Pid.SmallGain | bare_metal_foc/src/pid.c:25-29 | at the gain 1e-9 with clamps of 0.0005 one error takes the integrator to twice the announced limit |
| Pid.OneSidedClamp | bare_metal_foc/src/pid.c:25-29 | with the shipped gain and clamp_min = 0 one negative error takes the integrator below the announced range |
| Pid.DerivativeKick | bare_metal_foc/src/pid.c:32-34 | for all measurements the derivative term differs from one taken on the measurement by kd times the setpoint step over dt, so the two agree exactly if the gain is zero or the setpoint has not moved |
| Pid.ShippedKick | bare_metal_foc/include/pid_gains.h:6-11 | with the shipped gains a setpoint step at constant measurement gives fifty times the step |
| BatchController.WeighingScale.Update | batch_mixer_scada/src/WeighingScale.cpp:14-17 | adds flow and noise while filling, nothing otherwise |
| BatchController.MixerDrum.Update | batch_mixer_scada/src/MixerDrum.cpp:14-20 | on the object, exactly the value function that `Mixer.DrumApproach` pins |
| Mixer.DrumTemperature | batch_mixer_scada/src/MixerDrum.cpp:14-20 | for short steps the drum stays between ambient and the equilibrium of its fastest speed |
| Mixer.DrumApproach | batch_mixer_scada/src/MixerDrum.cpp:14-20 | each step takes over the set speed, and shrinks the distance to the equilibrium temperature of that speed by the factor 1 - kCool dt |
| BatchController.PressureGuard.Acknowledge | batch_mixer_scada/src/PressureGuard.cpp:29-34 | clears the latch exactly if its reading is below the threshold |
| BatchController.Controller.LoadRecipe | batch_mixer_scada/src/BatchController.cpp:16-20 | replaces the recipe in IDLE and refuses otherwise |
| BatchController.Controller.Start | batch_mixer_scada/src/BatchController.cpp:22-38 | on objects, exactly the value function `Mixer.Start`; a refusal leaves everything as it was |
| Mixer.StartRefused | batch_mixer_scada/src/BatchController.cpp:22-28 | a start outside IDLE or after a failed self test changes nothing, and none touches drum, recipe and the other valves |
| BatchController.Controller.Step | batch_mixer_scada/src/BatchController.cpp:40-96 | on objects, exactly the value function `Mixer.Step` on all components at once |
| BatchController.Controller.Acknowledge | batch_mixer_scada/src/BatchController.cpp:98-104 | leaves the emergency stop and clears the latch exactly if the guard's reading is below the threshold |
| Mixer.StepKeepsInv | batch_mixer_scada/src/BatchController.cpp:40-96 | every step keeps the interlocks, the filling flags and the dosing bounds |
| Mixer.StepFrame | batch_mixer_scada/src/BatchController.cpp:40-96 | only the active scale gains, by exactly flow and noise; only mixing takes time and moves the drum temperature; an emergency stop spares all of them |
| Mixer.MixingTime | batch_mixer_scada/src/BatchController.cpp:74-82 | mixing ends in the step that reaches the recipe's time, exceeding it by less than that step exactly if the recipe's time is positive |
| Mixer.RankDecreases | batch_mixer_scada/src/BatchController.cpp:52-96 | each step of a running batch lowers a bound on the steps left |
| Mixer.BatchCompletes | batch_mixer_scada/src/BatchController.cpp:22-96 | without a trip a started batch is back in IDLE within max(1,ceil((a-0.5)/g)) + max(1,ceil((b-0.5)/g)) + max(1,ceil(mix/d)) + 1 steps |
| Watchdog.EveryBatch | batch_mixer_scada/src/BatchController.cpp:16-104 | under every interleaving: at most one valve open, none in an emergency stop; drum turning only in MIXING, and at the recipe's speed from its first step on; a running batch has the recipe it was started with; masses within the tolerance below and one gain above target; mixing time reached |
| Watchdog.RecipeFrozen | batch_mixer_scada/src/BatchController.cpp:16-20 | whatever call or watcher move comes, the recipe changes only by a load in IDLE, so it is frozen in every other state, the emergency stop included |
| Watchdog.LoadReplaces | batch_mixer_scada/src/BatchController.cpp:16-20 | a load replaces the recipe and nothing else in IDLE, and changes nothing elsewhere |
| Watchdog.AcknowledgeDecides | batch_mixer_scada/src/BatchController.cpp:98-104 | an acknowledge with a reading below the threshold leaves the stop for IDLE and clears the latch, any other changes nothing |
| Watchdog.StopIsLeftBelowThreshold | batch_mixer_scada/src/BatchController.cpp:98-104 | the emergency stop is left only by an acknowledge whose own reading was below the threshold |
| Watchdog.WatcherLatches | batch_mixer_scada/src/PressureGuard.cpp:11-23 | while readings are high and no acknowledge is past its check with a low reading, three watcher moves set the latch and nothing clears it |
| Watchdog.TripHasCause | batch_mixer_scada/src/PressureGuard.cpp:11-23 | over every run, a latch that is set goes back to a watcher reading above the threshold |
| Watchdog.NeverStopped | batch_mixer_scada/src/BatchController.cpp:40-50 | while all watcher readings are at most the threshold, the controller never enters the emergency stop |
| Watchdog.StartedBatchCompletes | batch_mixer_scada/src/BatchController.cpp:22-96 | from power-on at normal pressure, a started batch is back in IDLE after the computed number of steps whatever the two threads do in between |
| Watchdog.LatchSurvives | batch_mixer_scada/src/PressureGuard.cpp:29-34 | the latch survives every high-pressure continuation exactly if no acknowledge is past its check with a low reading |
| Watchdog.OverpressureStops | batch_mixer_scada/src/BatchController.cpp:40-50 | under sustained overpressure, once a pending acknowledge has moved on and the watcher has polled, the next step() call is in EMERGENCY_STOP with valves closed and drum at rest |
| Watchdog.LatchRace | batch_mixer_scada/src/PressureGuard.cpp:29-34 | a concrete interleaving in which an acknowledge clears a latch that was set after its reading |
| Hil.HilFsm.Step | hil/controller/src/HilFsm.cpp:10-44 | on the object, exactly the value function `Fsm.Step`, history included |
| Hil.FaultIffBreach | hil/controller/src/HilFsm.cpp:14-21 | without an operator the controller is in FAULT exactly if some valid frame had more than 85 degrees or 5 bar |
| Hil.StopHolds | hil/controller/src/HilFsm.cpp:37-54 | fault and emergency stop hold through any number of steps, and a reset leads back to STANDBY |
| Hil.SetpointLaw | hil/controller/src/HilFsm.cpp:56-64 | the speed falls by a 320th of each degree from 0.5 extrapolated to zero degrees down to 0.1 at 128; cooling is asked for exactly above 60 |
| Hil.RunningIffFiveValid | hil/controller/src/HilFsm.cpp:23-42 | from every standby, also after a reset, if no frame breaches a threshold, the controller runs exactly if five calls after the first saw a valid frame |
| Hil.AgreesIffNoGap | hil/controller/src/HilFsm.cpp:29-33 | over runs without a breach, the code and the documented rule of five consecutive valid frames agree at every moment exactly if no invalid frame lies between the first and the fifth valid one after the first call |
| Hil.GapsAreIgnored | hil/controller/src/HilFsm.cpp:29-33 | with every other frame invalid the controller runs without two valid frames in a row |
| Hil.HistoryIsPath | hil/controller/src/HilFsm.cpp:3-8 | the recorded transitions of any calls form a path from STANDBY to the present state |
| Hil.TickTemperature | hil/simulator_hil.py:38-42 | a step keeps the spindle in [20, 75] for commands of 0 or 1 |
| Hil.Approach | hil/simulator_hil.py:38-42 | each step shrinks the distance to 75 degrees, or to 45 with cooling, by exactly the factor 1 - lag |
| Hil.CoolingCools | hil/simulator_hil.py:38-42 | a cooled spindle above 45 degrees cools, an uncooled one below 75 does not |
| Hil.TickFrame | hil/simulator_hil.py:34-45 | position moves by speed times dt, the spindle stays in [15, 120], the pressure follows the clock, the commanded values stay |
| Hil.TickLimits | hil/simulator_hil.py:38-42 | the spindle follows the lag exactly between 15 and 120 degrees and is held at these limits |
| Hil.RoundToBounds | hil/simulator_hil.py:52-58 | rounding to nearest, ties to even, respects bounds that are representable |
| Hil.RoundNearest | hil/simulator_hil.py:52-58 | it moves a value by at most half a unit, in a tie to an even multiple |
| Hil.MessagesCarryReadings | hil/controller/src/main_hil.cpp:27-38 | each of the three messages of a tick carries one rounded reading, and the handler fills in the defaults for the others |
| Hil.PhysicsModel.Step | hil/simulator_hil.py:34-45 | on the object, exactly the value function that the laws above pin |
| Hil.PhysicsModel.ApplyCommand | hil/simulator_hil.py:47-50 | takes both fields of a conveyor command, with zero for a missing one, and ignores other topics |
| Hil.ConveyorCommand | hil/simulator_hil.py:47-50 | a conveyor command sets speed and cooling, a missing field counting as zero |
| Hil.OtherTopics | hil/simulator_hil.py:47-50 | a command for another actuator leaves the machine alone |
| ClosedLoop.SetpointIsGood | hil/controller/src/HilFsm.cpp:56-64 | for frames within limits the speed lies in [0.26, 0.44] and cooling is asked for exactly above 60 degrees |
| ClosedLoop.ClosedLoopIsSafe | hil/controller/src/main_hil.cpp:27-73 | from power-on, under any loss, delay, reordering, repetition and operator calls: never FAULT, temperature in [20, 75], pressure in [0.9, 1.1], commands in range, cooling only after a hot reading |
| ClosedLoop.ConveyorAdvances | hil/simulator_hil.py:34-50 | the conveyor position never decreases over any run |
| ClosedLoop.PositionIsSum | hil/simulator_hil.py:34-45 | over any run the position is the sum of speed times dt of its ticks |
| ClosedLoop.CommandFollowsReading | hil/controller/src/main_hil.cpp:27-68 | a delivered reading, one control cycle and the delivery of its command set speed 0.5 - temperature/320 and cooling exactly above 60 degrees |
| ClosedLoop.SilentUnlessRunning | hil/controller/src/main_hil.cpp:59-68 | commands are published by the control loop only, in RUNNING with a valid frame only |
| ClosedLoop.StaysStopped | hil/controller/src/HilFsm.cpp:46-48 | after an operator's halt the emergency stop holds until a reset, and at most the one command already decided on is published |
| ClosedLoop.OperatorCalls | hil/controller/src/HilFsm.cpp:46-54 | a halt leads to the emergency stop, a reset from it or from a fault to STANDBY, and nothing else changes |
| ClosedLoop.KeepsRunning | hil/controller/src/main_hil.cpp:55-68 | once RUNNING, the controller stays so until an operator intervenes |
| ClosedLoop.ValidIffDelivered | hil/controller/src/main_hil.cpp:27-38 | the buffer is valid exactly from the first delivered message on, so gaps do not occur in this program |
| ClosedLoop.StartsRunning | hil/controller/src/main_hil.cpp:55-68 | once the buffer is valid, at most six calls of step lead to RUNNING, whatever else happens without an operator |
| ClosedLoop.OneMessageSuffices | hil/controller/src/main_hil.cpp:27-68 | a single delivered message, read again and again, is enough to reach RUNNING |
| MqttLength.AppendRemainingLen | hil/controller/src/MqttClient.cpp:26-33 | appends exactly the encoding of the length |
| MqttLength.LengthRoundTrip | hil/controller/src/MqttClient.cpp:206-215 | decoding returns every 32-bit length and consumes exactly its encoding, whatever follows |
| MqttLength.EncodingMeaning | hil/controller/src/MqttClient.cpp:26-33 | the encoding stands for its number in base 128, least significant first, with continuation bits on all bytes but the last |
| MqttLength.EncodedSize | hil/controller/src/MqttClient.cpp:26-33 | the encoding has at most k bytes exactly if the length is below 128^k |
| MqttLength.StandardLimit | hil/controller/src/MqttClient.cpp:26-33 | four bytes suffice exactly up to 268435455, five for every 32-bit length |
| MqttLength.EncodingIsMinimal | hil/controller/src/MqttClient.cpp:206-215 | no complete byte string that decodes to a length is shorter than its encoding, also when the decoder wraps |
| MqttStream.Outbound.WriteAll | hil/controller/src/MqttClient.cpp:181-189 | short writes are continued until all bytes are out; on failure a proper prefix is |
| MqttStream.Publisher.Publish | hil/controller/src/MqttClient.cpp:109-122 | puts exactly the packet on the wire, or a proper prefix of it, or nothing when not connected, and counts packet numbers above QoS 0 in every case |
| MqttStream.HeaderBits | hil/controller/src/MqttClient.cpp:115-118 | the first byte says type 3 and the quality of service, with DUP and RETAIN clear, by section 3.3.1 of MQTT 3.1.1 |
| MqttStream.PacketLayout | hil/controller/src/MqttClient.cpp:16-24 | first byte, topic length with the high byte first, topic, packet number above QoS 0, payload |
| MqttStream.Inbound.ReadExact | hil/controller/src/MqttClient.cpp:195-204 | short reads are continued; succeeds exactly if enough bytes are left |
| MqttStream.Inbound.ReadRemainingLength | hil/controller/src/MqttClient.cpp:206-215 | refines the decoding function, including 32-bit wrap-around and the end of the stream |
| MqttStream.Inbound.ReaderLoop | hil/controller/src/MqttClient.cpp:147-165 | what is delivered is a function of the bytes alone, for every way the reads cut them up, and a prefix of it if the running flag is cleared early |
| MqttStream.StreamRoundTrip | hil/controller/src/MqttClient.cpp:109-165 | any stream of QoS 0 publishes interleaved with other packets parses to exactly the published messages in order |
| MqttStream.EndToEnd | hil/controller/src/MqttClient.cpp:109-215 | publishing through short writes and reading through short reads returns the published sequence |
| MqttStream.SinglePublish | hil/controller/src/MqttClient.cpp:109-165 | a publish survives exactly if it is sent at QoS 0 with a topic of at most 65535 bytes |
| MqttStream.PacketNumberDelivered | hil/controller/src/MqttClient.cpp:109-165 | at QoS 1 and 2 every message is delivered with its packet number in front of the payload |
| MqttStream.QosOneExample | hil/controller/src/MqttClient.cpp:109-165 | a concrete QoS 1 publish that arrives changed |
| MqttStream.CutStream | hil/controller/src/MqttClient.cpp:147-165 | if the connection ends after any number of bytes, a prefix of the messages was delivered, and the reader indexes an empty body exactly if the end fell inside a publish's length field |
| MqttFilter.HashMatchIsLevelwise | hil/controller/src/MqttClient.cpp:168-174 | for every filter L1/../Lk/# the byte-prefix test equals "the first k levels agree and there is at least one more" |
| MqttFilter.PlainMatch | hil/controller/src/MqttClient.cpp:168-174 | a filter without trailing # matches exactly the topics with the same levels |
| MqttFilter.DepartureFromStandard | hil/controller/src/MqttClient.cpp:168-174 | on valid filters L1/../Lk/#, plus signs included, the test matches more than section 4.7 of MQTT 3.1.1 exactly on dollar topics under a bare #, and less exactly on covered topics at the parent level or where a + must stand for another level |
| MqttFilter.PlusIsLiteral | hil/controller/src/MqttClient.cpp:168-174 | on valid filters without #, the test never matches more than the standard, and less exactly where a + must stand for another level |
| MqttFilter.ParentIsMissed | hil/controller/src/MqttClient.cpp:168-174 | the filter sensor/# does not match the topic sensor, which the standard wants matched |
| MqttFilter.PlusIsMissed | hil/controller/src/MqttClient.cpp:168-174 | the filter +/a does not match the topic b/a, which the standard wants matched |
| MqttFilter.DollarIsMatched | hil/controller/src/MqttClient.cpp:168-174 | the filter # matches the topic $, which the standard forbids |
| MqttFilter.Dispatch | hil/controller/src/MqttClient.cpp:167-174 | the callbacks that run are those of exactly the matching filters |
| Washer.NoPumpingWhileHot | controller/src/CycleController.cpp:66-137 | under every interleaving with stops and resets the pump is off once run() has returned and never moves water while the heater has a target |
| Washer.StopEndsRun | controller/src/CycleController.cpp:26-29 | once the flag is cleared the worker returns with the pump off after at most seven more statements |
| Washer.LongestWayOut | controller/src/CycleController.cpp:66-84 | six statements are not always enough |
| Washer.FillPoll | controller/src/CycleController.cpp:77-86 | an undisturbed poll ends the filling at a level of 8.0, and otherwise changes nothing |
| Washer.HeatPoll | controller/src/CycleController.cpp:92-101 | the same for heating and the setpoint |
| Washer.HoldPoll | controller/src/CycleController.cpp:107-120 | the same for holding and the configured whole seconds |
| Washer.DrainPoll | controller/src/CycleController.cpp:127-130 | the same for draining and a level of 0.3 |
| Washer.OpenDoorEndsRun | controller/src/CycleController.cpp:78-115 | a door seen open or unlocked while filling, heating or holding ends the run in at most three statements with ERROR, pump off and heater without a target |
| Washer.LockFails | controller/src/CycleController.cpp:68-72 | a door that does not lock ends the run in ERROR before anything is switched on |
| Washer.HeaterPolls | controller/src/CycleController.cpp:88-120 | under every interleaving the heater is set to 85 degrees whenever heating or holding polls |
| Washer.PumpPolls | controller/src/CycleController.cpp:74-131 | without resets the pump fills whenever filling polls and drains whenever draining polls |
| Washer.CallsAlone | controller/src/CycleController.cpp:26-42 | an undisturbed stop stores ERROR and clears the flag; an undisturbed reset from COMPLETE or ERROR stops the pump, unlocks and stores IDLE, from elsewhere it is refused |
| Washer.CycleCompletes | controller/src/CycleController.cpp:66-137 | for every holding time a cycle with good readings completes, unlocked, with pump and heater off and the flag cleared |
| Washer.InterruptedIffForeign | controller/src/CycleController.cpp:66-137 | under every interleaving, a phase is left without its condition exactly if a state test of the worker runs while the state was last stored by an operator call |
| Washer.CompletedIffNotOvertaken | controller/src/CycleController.cpp:26-137 | with any number of stops and resets, a completed cycle has seen level >= 8.0, setpoint, full hold and level <= 0.3 in this order exactly if no such test ran while an emergencyStop was between its two statements |
| Washer.AtomicStopsSuffice | controller/src/CycleController.cpp:26-137 | it has seen them whenever the worker stood still between the two statements of each emergencyStop |
| Washer.CompletedCycle | controller/src/CycleController.cpp:66-137 | with any resets but no emergency stop, a completed cycle has seen the four conditions in order |
| Washer.OvertakenStopCompletes | controller/src/CycleController.cpp:26-29 | for every configured holding time, a concrete interleaving in which an emergency stop overtaken between its statements lets a cycle that never filled complete |

## Left out

- Foc.InvClarke: phase b is computed but, as in the C code, not observable; there is no statement about it.
- Foc.Park: its accuracy is stated for inputs other than -2^31, which a factor of -1.0 takes out of 32 bits.
- Foc.RoundTrip: bounds currents by 2^28, half the range in which the chain could overflow; nothing is stated beyond.
- CanFrame.Unpack: the null tests of the three out-pointers are not modelled, since results are values here.
- CanRing.RingIsFifo: assumes sequential consistency; the plain `uint8_t` indices of the C code promise no ordering on weakly ordered processors.
- Watchdog.EveryBatch: one control thread makes all calls; calls from several threads at once are not modelled, nor is a tripped guard claimed to prevent `start`, which does not consult it.
- Hil.HilFsm.Step: the race of `step` with a concurrent `emergencyStop`, each storing the state without comparing it first, is not modelled; operator calls fall between steps.
- MqttStream.Publisher.Publish: the write lock is not modelled; each publish is one call.
- MqttFilter.Dispatch: the order in which the unordered map visits the filters is a parameter.
- Washer.CompletedCycle: one `start()` only; the operator calls and the worker are a state machine on values, so object identity and the joining of the worker thread are not captured.
- Hil.HistoryIsPath: `drainTransitions`, which hands the history over and empties it, is absent.
- MixerDrum, Valve and PressureSensor `init` and `read`, error messages, status snapshots and console output are trivial and absent.
- Floating-point rounding, NaN, clocks, random generators, socket set-up, CONNACK, keep-alive and JSON text are not part of the model.
- Concurrent `subscribe`, which writes without the write lock, is not part of the model.
- The SciPy motor model, the tuner and code generator, the HTTP and telemetry layers, the database scripts, the Windows service and the ADS links are not part of the model.
