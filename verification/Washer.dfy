/**
  The washer's worker thread against its operator calls (controller/src/CycleController.cpp).

  `run()` is a program counter; a worker move executes one statement or evaluates one loop or
  branch condition. Any number of `emergencyStop()` and `reset()` calls may be in progress,
  each advancing one statement a move. Sensor readings are arbitrary inputs of the moves.
 */
module Washer {

  datatype CycleState = Idle | Initialising | WaterIntake | Heating | Processing | Draining | Complete | Error

  const FILL_TARGET := 8.0
  const HEAT_TARGET := 85.0
  const DRAIN_DONE := 0.3

  /** The statements of one phase of `run()`, in program order. */
  datatype InitPc = Enter | Lock | Fail
  datatype FillPc = Enter | Pump | Running | State | Door | DoorStop | DoorFail | Level | Stop | Check
  datatype HeatPc = Enter | Target | Running | State | Door | DoorCold | DoorStop | DoorFail | AtTarget | Check
  datatype HoldPc = Enter | Clock | Running | State | Door | DoorCold | DoorStop | DoorFail | Elapsed | Cold | Check
  datatype DrainPc = Enter | Pump | Running | State | Level | Stop | Check
  datatype DonePc = Unlock | Finish | Clear

  /** The next statement of `run()`. */
  datatype Pc =
    | Init(init: InitPc) | Fill(fill: FillPc) | Heat(heat: HeatPc) | Hold(hold: HoldPc) | Drain(drain: DrainPc)
    | Done(done: DonePc) | Returned

  /** Why a phase was left for the next one: the awaited condition was seen, or the state had changed. */
  datatype Exit = Filled(level: real) | Hot | Held(elapsed: int) | Drained(level: real) | Interrupted

  /** A call in progress: `emergencyStop` before its second statement, `reset` before its n-th. */
  datatype Call = StopSecond | ResetPump | ResetDoor | ResetState

  datatype System = System(
    pc: Pc, state: CycleState, running: bool, pump: int, target: real, locked: bool,
    now: real, processingStart: real, processSecs: int,
    calls: seq<Call>, exits: seq<Exit>
  )

  /** After `start()`: the flag is set, the thread is about to run. */
  function Started(processSecs: int, now: real): System {
    System(Init(InitPc.Enter), Idle, true, 0, 0.0, false, now, 0.0, processSecs, [], [])
  }

  /** What the hardware answers if it is asked in this move. */
  datatype Input = Input(lockOk: bool, doorShut: bool, level: real, atTarget: bool)

  datatype Move =
    | Worker(input: Input)
    | Tick(dt: real)
    | CallStop
    | CallReset
    | Continue(k: nat)      // one more statement of the k-th call in progress

  function Exited(s: System, e: Exit, next: Pc): System {
    s.(exits := s.exits + [e], pc := next)
  }

  function Failed(s: System): System {
    s.(state := Error, pc := Returned)
  }

  function InitStep(s: System, pc: InitPc, i: Input): System {
    match pc
    case Enter => s.(state := Initialising, pc := Init(Lock))
    case Lock => if i.lockOk then s.(locked := true, pc := Fill(FillPc.Enter)) else s.(pc := Init(Fail))
    case Fail => Failed(s)
  }

  function FillStep(s: System, pc: FillPc, i: Input): System {
    match pc
    case Enter => s.(state := WaterIntake, pc := Fill(FillPc.Pump))
    case Pump => s.(pump := 1, pc := Fill(FillPc.Running))
    case Running => s.(pc := Fill(if s.running then FillPc.State else FillPc.Stop))
    case State => if s.state == WaterIntake then s.(pc := Fill(FillPc.Door)) else Exited(s, Interrupted, Fill(FillPc.Stop))
    case Door => s.(pc := Fill(if s.locked && i.doorShut then FillPc.Level else FillPc.DoorStop))
    case DoorStop => s.(pump := 0, pc := Fill(FillPc.DoorFail))
    case DoorFail => Failed(s)
    case Level =>
      if i.level >= FILL_TARGET then Exited(s, Filled(i.level), Fill(FillPc.Stop)) else s.(pc := Fill(FillPc.Running))
    case Stop => s.(pump := 0, pc := Fill(FillPc.Check))
    case Check => s.(pc := if s.running then Heat(HeatPc.Enter) else Returned)
  }

  function HeatStep(s: System, pc: HeatPc, i: Input): System {
    match pc
    case Enter => s.(state := Heating, pc := Heat(Target))
    case Target => s.(target := HEAT_TARGET, pc := Heat(HeatPc.Running))
    case Running => s.(pc := Heat(if s.running then HeatPc.State else HeatPc.Check))
    case State => if s.state == Heating then s.(pc := Heat(HeatPc.Door)) else Exited(s, Interrupted, Heat(HeatPc.Check))
    case Door => s.(pc := Heat(if s.locked && i.doorShut then AtTarget else HeatPc.DoorCold))
    case DoorCold => s.(target := 0.0, pc := Heat(HeatPc.DoorStop))
    case DoorStop => s.(pump := 0, pc := Heat(HeatPc.DoorFail))
    case DoorFail => Failed(s)
    case AtTarget => if i.atTarget then Exited(s, Hot, Heat(HeatPc.Check)) else s.(pc := Heat(HeatPc.Running))
    case Check => s.(pc := if s.running then Hold(HoldPc.Enter) else Returned)
  }

  function HoldStep(s: System, pc: HoldPc, i: Input): System {
    match pc
    case Enter => s.(state := Processing, pc := Hold(Clock))
    case Clock => s.(processingStart := s.now, pc := Hold(HoldPc.Running))
    case Running => s.(pc := Hold(if s.running then HoldPc.State else Cold))
    case State => if s.state == Processing then s.(pc := Hold(HoldPc.Door)) else Exited(s, Interrupted, Hold(Cold))
    case Door => s.(pc := Hold(if s.locked && i.doorShut then Elapsed else HoldPc.DoorCold))
    case DoorCold => s.(target := 0.0, pc := Hold(HoldPc.DoorStop))
    case DoorStop => s.(pump := 0, pc := Hold(HoldPc.DoorFail))
    case DoorFail => Failed(s)
    case Elapsed =>
      var elapsed := (s.now - s.processingStart).Floor;
      if elapsed >= s.processSecs then Exited(s, Held(elapsed), Hold(Cold)) else s.(pc := Hold(HoldPc.Running))
    case Cold => s.(target := 0.0, pc := Hold(HoldPc.Check))
    case Check => s.(pc := if s.running then Drain(DrainPc.Enter) else Returned)
  }

  function DrainStep(s: System, pc: DrainPc, i: Input): System {
    match pc
    case Enter => s.(state := Draining, pc := Drain(DrainPc.Pump))
    case Pump => s.(pump := -1, pc := Drain(DrainPc.Running))
    case Running => s.(pc := Drain(if s.running then DrainPc.State else DrainPc.Stop))
    case State => if s.state == Draining then s.(pc := Drain(DrainPc.Level)) else Exited(s, Interrupted, Drain(DrainPc.Stop))
    case Level =>
      if i.level <= DRAIN_DONE then Exited(s, Drained(i.level), Drain(DrainPc.Stop)) else s.(pc := Drain(DrainPc.Running))
    case Stop => s.(pump := 0, pc := Drain(DrainPc.Check))
    case Check => s.(pc := if s.running then Done(Unlock) else Returned)
  }

  function DoneStep(s: System, pc: DonePc): System {
    match pc
    case Unlock => s.(locked := false, pc := Done(DonePc.Finish))
    case Finish => s.(state := Complete, pc := Done(Clear))
    case Clear => s.(running := false, pc := Returned)
  }

  function WorkerStep(s: System, i: Input): System {
    match s.pc
    case Init(pc) => InitStep(s, pc, i)
    case Fill(pc) => FillStep(s, pc, i)
    case Heat(pc) => HeatStep(s, pc, i)
    case Hold(pc) => HoldStep(s, pc, i)
    case Drain(pc) => DrainStep(s, pc, i)
    case Done(pc) => DoneStep(s, pc)
    case Returned => s
  }

  function Removed(calls: seq<Call>, k: nat): seq<Call>
    requires k < |calls|
  {
    calls[..k] + calls[k + 1..]
  }

  function CallStep(s: System, k: nat): System
    requires k < |s.calls|
  {
    match s.calls[k]
    case StopSecond => s.(running := false, calls := Removed(s.calls, k))
    case ResetPump => s.(pump := 0, calls := s.calls[k := ResetDoor])
    case ResetDoor => s.(locked := false, calls := s.calls[k := ResetState])
    case ResetState => s.(state := Idle, calls := Removed(s.calls, k))
  }

  function Advance(s: System, v: Move): System {
    match v
    case Worker(i) => WorkerStep(s, i)
    case Tick(dt) => if dt >= 0.0 then s.(now := s.now + dt) else s
    case CallStop => s.(state := Error, calls := s.calls + [StopSecond])
    case CallReset => if s.state == Complete || s.state == Error then s.(calls := s.calls + [ResetPump]) else s
    case Continue(k) => if k < |s.calls| then CallStep(s, k) else s
  }

  function Run(s: System, moves: seq<Move>): System
    decreases |moves|
  {
    if moves == [] then s else Run(Advance(s, moves[0]), moves[1..])
  }

  // ---------------------------------------------------------------------------------
  // The pump and the heater, under every interleaving
  // ---------------------------------------------------------------------------------

  /** The pump may fill from starting it to stopping it after the fill loop, and drain likewise. */
  predicate PumpAllowed(pc: Pc, pump: int) {
    || pump == 0
    || (pump == 1 && pc.Fill? && pc.fill !in {FillPc.Enter, FillPc.Pump, FillPc.DoorFail, FillPc.Check})
    || (pump == -1 && pc.Drain? && pc.drain !in {DrainPc.Enter, DrainPc.Pump, DrainPc.Check})
  }

  /** From setting the heater to the setpoint to setting it to zero. */
  predicate HotAllowed(pc: Pc) {
    match pc
    case Heat(h) => h !in {HeatPc.Enter, HeatPc.Target, HeatPc.DoorStop, HeatPc.DoorFail}
    case Hold(h) => h !in {HoldPc.DoorStop, HoldPc.DoorFail, HoldPc.Check}
    case Returned => true
    case _ => false
  }

  predicate SafeInv(s: System) {
    PumpAllowed(s.pc, s.pump) && (s.target == 0.0 || HotAllowed(s.pc))
  }

  lemma {:induction false} PumpAndHeater(s: System, moves: seq<Move>)
    requires SafeInv(s)
    ensures SafeInv(Run(s, moves))
    decreases |moves|
  {
    if moves != [] {
      SafeStep(s, moves[0]);
      PumpAndHeater(Advance(s, moves[0]), moves[1..]);
    }
  }

  lemma SafeStep(s: System, v: Move)
    requires SafeInv(s)
    ensures SafeInv(Advance(s, v))
  {
    if v.Worker? {
      WorkerSafe(s, v.input);
    }
  }

  lemma WorkerSafe(s: System, i: Input)
    requires SafeInv(s)
    ensures SafeInv(WorkerStep(s, i))
  {
    hide SafeInv;
    match s.pc
    case Init(pc) => InitSafe(s, pc, i);
    case Fill(pc) => FillSafe(s, pc, i);
    case Heat(pc) => HeatSafe(s, pc, i);
    case Hold(pc) => HoldSafe(s, pc, i);
    case Drain(pc) => DrainSafe(s, pc, i);
    case Done(pc) => DoneSafe(s, pc);
    case Returned =>
  }

  lemma InitSafe(s: System, pc: InitPc, i: Input)
    requires SafeInv(s) && s.pc == Init(pc)
    ensures SafeInv(InitStep(s, pc, i))
  {
  }

  lemma FillSafe(s: System, pc: FillPc, i: Input)
    requires SafeInv(s) && s.pc == Fill(pc)
    ensures SafeInv(FillStep(s, pc, i))
  {
  }

  lemma HeatSafe(s: System, pc: HeatPc, i: Input)
    requires SafeInv(s) && s.pc == Heat(pc)
    ensures SafeInv(HeatStep(s, pc, i))
  {
  }

  lemma HoldSafe(s: System, pc: HoldPc, i: Input)
    requires SafeInv(s) && s.pc == Hold(pc)
    ensures SafeInv(HoldStep(s, pc, i))
  {
  }

  lemma DrainSafe(s: System, pc: DrainPc, i: Input)
    requires SafeInv(s) && s.pc == Drain(pc)
    ensures SafeInv(DrainStep(s, pc, i))
  {
  }

  lemma DoneSafe(s: System, pc: DonePc)
    requires SafeInv(s) && s.pc == Done(pc)
    ensures SafeInv(DoneStep(s, pc))
  {
  }

  /**
    Under every interleaving with emergency stops and resets: once `run()` has returned the
    pump is off, and the pump never fills or drains while the heater has a target.
   */
  lemma NoPumpingWhileHot(processSecs: int, now: real, moves: seq<Move>)
    ensures var s := Run(Started(processSecs, now), moves);
            && (s.pc == Returned ==> s.pump == 0)
            && (s.pump != 0 ==> s.target == 0.0)
  {
    PumpAndHeater(Started(processSecs, now), moves);
  }

  // ---------------------------------------------------------------------------------
  // An emergency stop ends the run in bounded time
  // ---------------------------------------------------------------------------------

  /** With the flag cleared, the worker statements left at most. */
  function StatementsLeft(pc: Pc): nat {
    match pc
    case Init(p) => (match p case Enter => 7 case Lock => 6 case Fail => 1)
    case Fill(p) =>
      (match p
       case Enter => 5 case Pump => 4 case Running => 3 case State => 6 case Door => 5
       case DoorStop => 2 case DoorFail => 1 case Level => 4 case Stop => 2 case Check => 1)
    case Heat(p) =>
      (match p
       case Enter => 4 case Target => 3 case Running => 2 case State => 5 case Door => 4
       case DoorCold => 3 case DoorStop => 2 case DoorFail => 1 case AtTarget => 3 case Check => 1)
    case Hold(p) =>
      (match p
       case Enter => 5 case Clock => 4 case Running => 3 case State => 6 case Door => 5
       case DoorCold => 3 case DoorStop => 2 case DoorFail => 1 case Elapsed => 4 case Cold => 2 case Check => 1)
    case Drain(p) =>
      (match p
       case Enter => 5 case Pump => 4 case Running => 3 case State => 5 case Level => 4 case Stop => 2 case Check => 1)
    case Done(p) => (match p case Unlock => 3 case Finish => 2 case Clear => 1)
    case Returned => 0
  }

  function WorkerMoves(moves: seq<Move>): nat {
    if moves == [] then 0 else (if moves[0].Worker? then 1 else 0) + WorkerMoves(moves[1..])
  }

  lemma StoppedStep(s: System, v: Move)
    requires !s.running
    ensures var t := Advance(s, v);
            && !t.running
            && StatementsLeft(t.pc) <= StatementsLeft(s.pc)
            && (v.Worker? && s.pc != Returned ==> StatementsLeft(t.pc) < StatementsLeft(s.pc))
  {
    if v.Worker? {
      StoppedWorker(s, v.input);
    }
  }

  lemma StoppedWorker(s: System, i: Input)
    requires !s.running
    ensures var t := WorkerStep(s, i);
            && !t.running
            && (if s.pc == Returned then t.pc == Returned else StatementsLeft(t.pc) < StatementsLeft(s.pc))
  {
    hide StatementsLeft;
    match s.pc
    case Init(pc) => InitStopped(s, pc, i);
    case Fill(pc) => FillStopped(s, pc, i);
    case Heat(pc) => HeatStopped(s, pc, i);
    case Hold(pc) => HoldStopped(s, pc, i);
    case Drain(pc) => DrainStopped(s, pc, i);
    case Done(pc) => DoneStopped(s, pc);
    case Returned =>
  }

  lemma InitStopped(s: System, pc: InitPc, i: Input)
    requires !s.running && s.pc == Init(pc)
    ensures !InitStep(s, pc, i).running && StatementsLeft(InitStep(s, pc, i).pc) < StatementsLeft(s.pc)
  {
  }

  lemma FillStopped(s: System, pc: FillPc, i: Input)
    requires !s.running && s.pc == Fill(pc)
    ensures !FillStep(s, pc, i).running && StatementsLeft(FillStep(s, pc, i).pc) < StatementsLeft(s.pc)
  {
  }

  lemma HeatStopped(s: System, pc: HeatPc, i: Input)
    requires !s.running && s.pc == Heat(pc)
    ensures !HeatStep(s, pc, i).running && StatementsLeft(HeatStep(s, pc, i).pc) < StatementsLeft(s.pc)
  {
  }

  lemma HoldStopped(s: System, pc: HoldPc, i: Input)
    requires !s.running && s.pc == Hold(pc)
    ensures !HoldStep(s, pc, i).running && StatementsLeft(HoldStep(s, pc, i).pc) < StatementsLeft(s.pc)
  {
  }

  lemma DrainStopped(s: System, pc: DrainPc, i: Input)
    requires !s.running && s.pc == Drain(pc)
    ensures !DrainStep(s, pc, i).running && StatementsLeft(DrainStep(s, pc, i).pc) < StatementsLeft(s.pc)
  {
  }

  lemma DoneStopped(s: System, pc: DonePc)
    requires !s.running && s.pc == Done(pc)
    ensures !DoneStep(s, pc).running && StatementsLeft(DoneStep(s, pc).pc) < StatementsLeft(s.pc)
  {
  }

  /**
    Once an `emergencyStop()` has cleared the flag, seven more worker statements at most end the
    run, wherever it was and whatever the sensors say, and then the pump is off.
   */
  lemma {:induction false} StopEndsRun(s: System, moves: seq<Move>)
    requires SafeInv(s) && !s.running && WorkerMoves(moves) >= StatementsLeft(s.pc)
    ensures Run(s, moves).pc == Returned && Run(s, moves).pump == 0
    decreases |moves|
  {
    hide StatementsLeft, Advance, SafeInv;
    NothingLeft(s);
    if moves != [] {
      SafeStep(s, moves[0]);
      StoppedStep(s, moves[0]);
      NothingLeft(Advance(s, moves[0]));
      StopEndsRun(Advance(s, moves[0]), moves[1..]);
    }
  }

  lemma NothingLeft(s: System)
    ensures StatementsLeft(s.pc) == 0 <==> s.pc == Returned
    ensures StatementsLeft(s.pc) <= 7
    ensures SafeInv(s) && s.pc == Returned ==> s.pump == 0
  {
  }

  // ---------------------------------------------------------------------------------
  // What a completed cycle has seen
  // ---------------------------------------------------------------------------------

  /** How many phases have been left for the next one. */
  function PhasesDone(pc: Pc): nat {
    match pc
    case Init(_) => 0
    case Fill(p) => if p == FillPc.Stop || p == FillPc.Check then 1 else 0
    case Heat(p) => if p == HeatPc.Check then 2 else 1
    case Hold(p) => if p == HoldPc.Cold || p == HoldPc.Check then 3 else 2
    case Drain(p) => if p == DrainPc.Stop || p == DrainPc.Check then 4 else 3
    case Done(_) => 4
    case Returned => 4
  }

  /** Between a polling loop and the test of the flag behind it. */
  predicate LoopLeft(pc: Pc) {
    match pc
    case Fill(p) => p == FillPc.Stop || p == FillPc.Check
    case Heat(p) => p == HeatPc.Check
    case Hold(p) => p == HoldPc.Cold || p == HoldPc.Check
    case Drain(p) => p == DrainPc.Stop || p == DrainPc.Check
    case _ => false
  }

  predicate ExitOfPhase(e: Exit, n: nat, processSecs: int) {
    match e
    case Interrupted => true
    case Filled(level) => n == 0 && level >= FILL_TARGET
    case Hot => n == 1
    case Held(elapsed) => n == 2 && elapsed >= processSecs
    case Drained(level) => n == 3 && level <= DRAIN_DONE
  }

  predicate GoodExits(exits: seq<Exit>, processSecs: int) {
    forall n :: 0 <= n < |exits| ==> ExitOfPhase(exits[n], n, processSecs)
  }

  lemma GoodExitsAppend(exits: seq<Exit>, e: Exit, processSecs: int)
    requires GoodExits(exits, processSecs) && ExitOfPhase(e, |exits|, processSecs)
    ensures GoodExits(exits + [e], processSecs)
  {
  }

  predicate ExitsInv(s: System) {
    && GoodExits(s.exits, s.processSecs)
    && (s.pc != Returned ==>
          || |s.exits| == PhasesDone(s.pc)
          || (!s.running && LoopLeft(s.pc) && |s.exits| == PhasesDone(s.pc) - 1))
    && (s.state == Complete ==> |s.exits| == 4)
  }

  lemma ExitsStep(s: System, v: Move)
    requires ExitsInv(s)
    ensures ExitsInv(Advance(s, v))
  {
    hide GoodExits, WorkerStep, PhasesDone, LoopLeft;
    if v.Worker? {
      WorkerExits(s, v.input);
    }
  }

  lemma WorkerExits(s: System, i: Input)
    requires ExitsInv(s)
    ensures ExitsInv(WorkerStep(s, i))
  {
    hide ExitsInv;
    match s.pc
    case Init(_) => InitExits(s, i);
    case Fill(_) => FillExits(s, i);
    case Heat(_) => HeatExits(s, i);
    case Hold(_) => HoldExits(s, i);
    case Drain(_) => DrainExits(s, i);
    case Done(_) => DoneExits(s, i);
    case Returned =>
  }

  lemma InitExits(s: System, i: Input)
    requires ExitsInv(s) && s.pc.Init?
    ensures ExitsInv(InitStep(s, s.pc.init, i))
  {
    hide GoodExits;
  }

  lemma FillExits(s: System, i: Input)
    requires ExitsInv(s) && s.pc.Fill?
    ensures ExitsInv(FillStep(s, s.pc.fill, i))
  {
    hide GoodExits;
    match s.pc.fill {
      case Enter | Pump | Running | Door | DoorStop | DoorFail | Stop | Check =>
      case State =>
        GoodExitsAppend(s.exits, Interrupted, s.processSecs);
      case Level =>
        if i.level >= FILL_TARGET {
          GoodExitsAppend(s.exits, Filled(i.level), s.processSecs);
        }
    }
  }

  lemma HeatExits(s: System, i: Input)
    requires ExitsInv(s) && s.pc.Heat?
    ensures ExitsInv(HeatStep(s, s.pc.heat, i))
  {
    hide GoodExits;
    match s.pc.heat {
      case Enter | Target | Running | Door | DoorCold | DoorStop | DoorFail | Check =>
      case State =>
        GoodExitsAppend(s.exits, Interrupted, s.processSecs);
      case AtTarget =>
        if i.atTarget {
          GoodExitsAppend(s.exits, Hot, s.processSecs);
        }
    }
  }

  lemma HoldExits(s: System, i: Input)
    requires ExitsInv(s) && s.pc.Hold?
    ensures ExitsInv(HoldStep(s, s.pc.hold, i))
  {
    hide GoodExits;
    match s.pc.hold {
      case Enter | Clock | Running | Door | DoorCold | DoorStop | DoorFail | Cold | Check =>
      case State =>
        GoodExitsAppend(s.exits, Interrupted, s.processSecs);
      case Elapsed =>
        if (s.now - s.processingStart).Floor >= s.processSecs {
          GoodExitsAppend(s.exits, Held((s.now - s.processingStart).Floor), s.processSecs);
        }
    }
  }

  lemma DrainExits(s: System, i: Input)
    requires ExitsInv(s) && s.pc.Drain?
    ensures ExitsInv(DrainStep(s, s.pc.drain, i))
  {
    hide GoodExits;
    match s.pc.drain {
      case Enter | Pump | Running | Stop | Check =>
      case State =>
        GoodExitsAppend(s.exits, Interrupted, s.processSecs);
      case Level =>
        if i.level <= DRAIN_DONE {
          GoodExitsAppend(s.exits, Drained(i.level), s.processSecs);
        }
    }
  }

  lemma DoneExits(s: System, i: Input)
    requires ExitsInv(s) && s.pc.Done?
    ensures ExitsInv(DoneStep(s, s.pc.done))
  {
    hide GoodExits;
  }

  // ---------------------------------------------------------------------------------
  // Which runs skip a condition
  // ---------------------------------------------------------------------------------

  /** The state that the worker itself stored last. */
  function OwnState(pc: Pc): CycleState {
    match pc
    case Init(p) => if p == InitPc.Enter then Idle else Initialising
    case Fill(p) => if p == FillPc.Enter then Initialising else WaterIntake
    case Heat(p) => if p == HeatPc.Enter then WaterIntake else Heating
    case Hold(p) => if p == HoldPc.Enter then Heating else Processing
    case Drain(p) => if p == DrainPc.Enter then Processing else Draining
    case Done(p) => if p == Clear then Complete else Draining
    case Returned => Error
  }

  /** The statements of `run()` that store the state. */
  predicate Stores(pc: Pc) {
    || pc in {Init(InitPc.Enter), Init(Fail), Fill(FillPc.Enter), Fill(FillPc.DoorFail)}
    || pc in {Heat(HeatPc.Enter), Heat(HeatPc.DoorFail), Hold(HoldPc.Enter), Hold(HoldPc.DoorFail)}
    || pc in {Drain(DrainPc.Enter), Done(DonePc.Finish)}
  }

  /** The tests of the state in the four polling loops. */
  predicate TestsState(pc: Pc) {
    pc in {Fill(FillPc.State), Heat(HeatPc.State), Hold(HoldPc.State), Drain(DrainPc.State)}
  }

  /** Whether the state was last stored by an operator call, after move `v`. */
  predicate Foreign(s: System, foreign: bool, v: Move) {
    match v
    case Worker(_) => foreign && !Stores(s.pc)
    case CallStop => true
    case Continue(k) => foreign || (k < |s.calls| && s.calls[k] == ResetState)
    case Tick(_) => foreign
    case CallReset => foreign
  }

  /** Some state test of the worker runs while the state was last stored by an operator call. */
  predicate TestsForeign(s: System, foreign: bool, moves: seq<Move>)
    decreases |moves|
  {
    && moves != []
    && (|| (moves[0].Worker? && TestsState(s.pc) && foreign)
        || TestsForeign(Advance(s, moves[0]), Foreign(s, foreign, moves[0]), moves[1..]))
  }

  /** Some such test runs while an `emergencyStop()` is between its two statements. */
  predicate Overtaken(s: System, foreign: bool, moves: seq<Move>)
    decreases |moves|
  {
    && moves != []
    && (|| (moves[0].Worker? && TestsState(s.pc) && foreign && StopSecond in s.calls)
        || Overtaken(Advance(s, moves[0]), Foreign(s, foreign, moves[0]), moves[1..]))
  }

  /** An operator call stores `Error` or `Idle`; otherwise the state is the worker's own. */
  predicate StateInv(s: System, foreign: bool) {
    if foreign then s.state in {Error, Idle} else s.pc != Returned ==> s.state == OwnState(s.pc)
  }

  lemma StateMove(s: System, foreign: bool, v: Move)
    requires StateInv(s, foreign)
    ensures StateInv(Advance(s, v), Foreign(s, foreign, v))
    ensures Interrupted in Advance(s, v).exits
            <==> Interrupted in s.exits || (v.Worker? && TestsState(s.pc) && foreign)
  {
    if v.Worker? {
      WorkerState(s, foreign, v.input);
    }
  }

  lemma WorkerState(s: System, foreign: bool, i: Input)
    requires StateInv(s, foreign)
    ensures StateInv(WorkerStep(s, i), foreign && !Stores(s.pc))
    ensures Interrupted in WorkerStep(s, i).exits <==> Interrupted in s.exits || (TestsState(s.pc) && foreign)
  {
    hide StateInv, Stores, TestsState;
    match s.pc
    case Init(pc) => InitState(s, foreign, pc, i);
    case Fill(pc) => FillState(s, foreign, pc, i);
    case Heat(pc) => HeatState(s, foreign, pc, i);
    case Hold(pc) => HoldState(s, foreign, pc, i);
    case Drain(pc) => DrainState(s, foreign, pc, i);
    case Done(pc) => DoneState(s, foreign, pc);
    case Returned => ReturnedState(s, foreign);
  }

  lemma InitState(s: System, foreign: bool, pc: InitPc, i: Input)
    requires StateInv(s, foreign) && s.pc == Init(pc)
    ensures StateInv(InitStep(s, pc, i), foreign && !Stores(s.pc))
    ensures Interrupted in InitStep(s, pc, i).exits <==> Interrupted in s.exits || (TestsState(s.pc) && foreign)
  {
  }

  lemma FillState(s: System, foreign: bool, pc: FillPc, i: Input)
    requires StateInv(s, foreign) && s.pc == Fill(pc)
    ensures StateInv(FillStep(s, pc, i), foreign && !Stores(s.pc))
    ensures Interrupted in FillStep(s, pc, i).exits <==> Interrupted in s.exits || (TestsState(s.pc) && foreign)
  {
  }

  lemma HeatState(s: System, foreign: bool, pc: HeatPc, i: Input)
    requires StateInv(s, foreign) && s.pc == Heat(pc)
    ensures StateInv(HeatStep(s, pc, i), foreign && !Stores(s.pc))
    ensures Interrupted in HeatStep(s, pc, i).exits <==> Interrupted in s.exits || (TestsState(s.pc) && foreign)
  {
  }

  lemma HoldState(s: System, foreign: bool, pc: HoldPc, i: Input)
    requires StateInv(s, foreign) && s.pc == Hold(pc)
    ensures StateInv(HoldStep(s, pc, i), foreign && !Stores(s.pc))
    ensures Interrupted in HoldStep(s, pc, i).exits <==> Interrupted in s.exits || (TestsState(s.pc) && foreign)
  {
  }

  lemma DrainState(s: System, foreign: bool, pc: DrainPc, i: Input)
    requires StateInv(s, foreign) && s.pc == Drain(pc)
    ensures StateInv(DrainStep(s, pc, i), foreign && !Stores(s.pc))
    ensures Interrupted in DrainStep(s, pc, i).exits <==> Interrupted in s.exits || (TestsState(s.pc) && foreign)
  {
  }

  lemma DoneState(s: System, foreign: bool, pc: DonePc)
    requires StateInv(s, foreign) && s.pc == Done(pc)
    ensures StateInv(DoneStep(s, pc), foreign && !Stores(s.pc))
    ensures Interrupted in DoneStep(s, pc).exits <==> Interrupted in s.exits || (TestsState(s.pc) && foreign)
  {
  }

  lemma ReturnedState(s: System, foreign: bool)
    requires StateInv(s, foreign) && s.pc == Returned
    ensures StateInv(s, foreign && !Stores(s.pc)) && !TestsState(s.pc)
  {
  }

  /**
    A phase is left without its condition exactly if a state test of the worker runs while the
    state was last stored by an operator call.
   */
  lemma {:induction false} InterruptedIffForeign(s: System, foreign: bool, moves: seq<Move>)
    requires StateInv(s, foreign)
    ensures Interrupted in Run(s, moves).exits <==> Interrupted in s.exits || TestsForeign(s, foreign, moves)
    decreases |moves|
  {
    hide StateInv, Advance, Foreign, TestsState;
    if moves != [] {
      StateMove(s, foreign, moves[0]);
      InterruptedIffForeign(Advance(s, moves[0]), Foreign(s, foreign, moves[0]), moves[1..]);
    }
  }

  predicate Unfinished(pc: Pc) {
    pc != Returned && pc != Done(Clear)
  }

  /** While an unfinished cycle has its flag, an operator can only have come in by a stop still pending. */
  predicate PendingInv(s: System, foreign: bool) {
    s.running && Unfinished(s.pc) && (foreign || s.calls != []) ==> StopSecond in s.calls
  }

  lemma PendingMove(s: System, foreign: bool, v: Move)
    requires StateInv(s, foreign) && PendingInv(s, foreign)
    ensures PendingInv(Advance(s, v), Foreign(s, foreign, v))
  {
    match v
    case Worker(i) => WorkerPending(s, i);
    case CallStop => assert (s.calls + [StopSecond])[|s.calls|] == StopSecond;
    case Continue(k) =>
      if k < |s.calls| {
        ContinuePending(s, k);
      }
    case Tick(_) =>
    case CallReset =>
      if StopSecond in s.calls {
        assert StopSecond in s.calls + [ResetPump];
      }
  }

  lemma WorkerPending(s: System, i: Input)
    ensures var t := WorkerStep(s, i);
            t.calls == s.calls && (t.running ==> s.running) && (Unfinished(t.pc) ==> Unfinished(s.pc))
  {
  }

  /** Continuing a call other than a stop leaves the pending stops alone. */
  lemma ContinuePending(s: System, k: nat)
    requires k < |s.calls|
    ensures var t := CallStep(s, k);
            && (t.running ==> s.running && s.calls[k] != StopSecond)
            && t.pc == s.pc
            && (s.calls[k] != StopSecond && StopSecond in s.calls ==> StopSecond in t.calls)
  {
    var t := CallStep(s, k);
    if s.calls[k] != StopSecond && StopSecond in s.calls {
      var j :| 0 <= j < |s.calls| && s.calls[j] == StopSecond;
      assert t.calls[if j < k || |t.calls| == |s.calls| then j else j - 1] == StopSecond;
    }
  }

  /** Without the flag, before the end of the cycle: it will not complete. */
  predicate Doomed(s: System) {
    !s.running && !s.pc.Done? && s.state != Complete
  }

  lemma {:induction false} DoomedStays(s: System, moves: seq<Move>)
    requires Doomed(s)
    ensures Doomed(Run(s, moves))
    decreases |moves|
  {
    hide Doomed, Advance;
    if moves != [] {
      DoomedMove(s, moves[0]);
      DoomedStays(Advance(s, moves[0]), moves[1..]);
    }
  }

  lemma DoomedMove(s: System, v: Move)
    requires Doomed(s)
    ensures Doomed(Advance(s, v))
  {
    if v.Worker? {
      WorkerDoomed(s, v.input);
    }
  }

  lemma WorkerDoomed(s: System, i: Input)
    requires Doomed(s)
    ensures Doomed(WorkerStep(s, i))
  {
  }

  /** A foreign test that no pending stop accounts for runs without the flag. */
  lemma ForeignTestDooms(s: System, i: Input)
    requires StateInv(s, true) && PendingInv(s, true) && TestsState(s.pc) && StopSecond !in s.calls
    ensures Doomed(WorkerStep(s, i))
  {
    assert Doomed(s);
    WorkerDoomed(s, i);
  }

  lemma {:induction false} ForeignMeansOvertaken(s: System, foreign: bool, moves: seq<Move>)
    requires StateInv(s, foreign) && PendingInv(s, foreign)
    ensures Overtaken(s, foreign, moves) ==> TestsForeign(s, foreign, moves)
    ensures TestsForeign(s, foreign, moves) && Run(s, moves).state == Complete ==> Overtaken(s, foreign, moves)
    decreases |moves|
  {
    hide StateInv, PendingInv, Advance, Foreign, TestsState, Doomed;
    if moves != [] {
      var v := moves[0];
      var t := Advance(s, v);
      if v.Worker? && TestsState(s.pc) && foreign && StopSecond !in s.calls {
        ForeignTestDooms(s, v.input);
        assert t == WorkerStep(s, v.input) by { IsWorkerStep(s, v); }
        DoomedStays(t, moves[1..]);
        NotComplete(Run(s, moves));
      }
      StateMove(s, foreign, v);
      PendingMove(s, foreign, v);
      ForeignMeansOvertaken(t, Foreign(s, foreign, v), moves[1..]);
    }
  }

  lemma IsWorkerStep(s: System, v: Move)
    requires v.Worker?
    ensures Advance(s, v) == WorkerStep(s, v.input)
  {
  }

  lemma NotComplete(s: System)
    requires Doomed(s)
    ensures s.state != Complete
  {
  }

  lemma {:induction false} ExitsRun(s: System, moves: seq<Move>)
    requires ExitsInv(s)
    ensures ExitsInv(Run(s, moves)) && Run(s, moves).processSecs == s.processSecs
    decreases |moves|
  {
    hide ExitsInv, Advance;
    if moves != [] {
      ExitsStep(s, moves[0]);
      SecsFixed(s, moves[0]);
      ExitsRun(Advance(s, moves[0]), moves[1..]);
    }
  }

  lemma SecsFixed(s: System, v: Move)
    ensures Advance(s, v).processSecs == s.processSecs
  {
  }

  /** The fill level, the setpoint, the full holding time and the drained level, in this order. */
  predicate AllSeen(e: seq<Exit>, processSecs: int) {
    && |e| == 4
    && e[0].Filled? && e[0].level >= 8.0
    && e[1] == Hot
    && e[2].Held? && e[2].elapsed >= processSecs
    && e[3].Drained? && e[3].level <= 0.3
  }

  /**
    Under every interleaving with stops and resets, a completed cycle has seen its four
    conditions in order exactly if no state test of the worker ran, on a state stored by an
    operator call, while an `emergencyStop()` was between its two statements.
   */
  lemma CompletedIffNotOvertaken(processSecs: int, now: real, moves: seq<Move>)
    requires Run(Started(processSecs, now), moves).state == Complete
    ensures AllSeen(Run(Started(processSecs, now), moves).exits, processSecs)
            <==> !Overtaken(Started(processSecs, now), false, moves)
  {
    hide Run, ExitsInv, Overtaken, TestsForeign;
    var s0 := Started(processSecs, now);
    ExitsRun(s0, moves) by { StartedInv(processSecs, now); }
    InterruptedIffForeign(s0, false, moves);
    ForeignMeansOvertaken(s0, false, moves);
    SeenOrInterrupted(Run(s0, moves));
  }

  lemma StartedInv(processSecs: int, now: real)
    ensures ExitsInv(Started(processSecs, now))
  {
  }

  lemma SeenOrInterrupted(s: System)
    requires ExitsInv(s) && s.state == Complete
    ensures AllSeen(s.exits, s.processSecs) <==> Interrupted !in s.exits
  {
    assert forall n :: 0 <= n < 4 ==> ExitOfPhase(s.exits[n], n, s.processSecs) && s.exits[n] in s.exits;
  }

  /** The worker stands still while an `emergencyStop()` is between its two statements. */
  predicate StopsAtomic(s: System, moves: seq<Move>)
    decreases |moves|
  {
    moves == [] || (!(moves[0].Worker? && StopSecond in s.calls) && StopsAtomic(Advance(s, moves[0]), moves[1..]))
  }

  lemma {:induction false} AtomicNotOvertaken(s: System, foreign: bool, moves: seq<Move>)
    requires StopsAtomic(s, moves)
    ensures !Overtaken(s, foreign, moves)
    decreases |moves|
  {
    hide Advance, Foreign, TestsState;
    if moves != [] {
      AtomicNotOvertaken(Advance(s, moves[0]), Foreign(s, foreign, moves[0]), moves[1..]);
    }
  }

  /** If `emergencyStop()` were atomic, every completed cycle would have seen its four conditions. */
  lemma AtomicStopsSuffice(processSecs: int, now: real, moves: seq<Move>)
    requires StopsAtomic(Started(processSecs, now), moves)
    requires Run(Started(processSecs, now), moves).state == Complete
    ensures AllSeen(Run(Started(processSecs, now), moves).exits, processSecs)
  {
    AtomicNotOvertaken(Started(processSecs, now), false, moves);
    CompletedIffNotOvertaken(processSecs, now, moves);
  }

  predicate NoStop(moves: seq<Move>) {
    CallStop !in moves
  }

  lemma {:induction false} NoStopIsAtomic(s: System, moves: seq<Move>)
    requires NoStop(moves) && StopSecond !in s.calls
    ensures StopsAtomic(s, moves)
    decreases |moves|
  {
    hide Advance;
    if moves != [] {
      NoStopMove(s, moves[0]);
      NoStopIsAtomic(Advance(s, moves[0]), moves[1..]);
    }
  }

  lemma NoStopMove(s: System, v: Move)
    requires v != CallStop && StopSecond !in s.calls
    ensures StopSecond !in Advance(s, v).calls
  {
    if v.Worker? {
      WorkerPending(s, v.input);
    }
  }

  /** In particular, without any emergency stop, whatever resets there are. */
  lemma CompletedCycle(processSecs: int, now: real, moves: seq<Move>)
    requires NoStop(moves)
    requires Run(Started(processSecs, now), moves).state == Complete
    ensures AllSeen(Run(Started(processSecs, now), moves).exits, processSecs)
  {
    NoStopIsAtomic(Started(processSecs, now), moves);
    AtomicStopsSuffice(processSecs, now, moves);
  }

  /** `n` worker moves with the same sensor answers. */
  function Play(s: System, i: Input, n: nat): System
    decreases n
  {
    if n == 0 then s else Play(WorkerStep(s, i), i, n - 1)
  }

  function WorkerTimes(i: Input, n: nat): seq<Move> {
    if n == 0 then [] else [Worker(i)] + WorkerTimes(i, n - 1)
  }

  lemma {:induction false} PlayIsRun(s: System, i: Input, n: nat, rest: seq<Move>)
    ensures Run(s, WorkerTimes(i, n) + rest) == Run(Play(s, i, n), rest)
    decreases n
  {
    var moves := WorkerTimes(i, n) + rest;
    if n == 0 {
      assert moves == rest;
    } else {
      assert moves[0] == Worker(i) && moves[1..] == WorkerTimes(i, n - 1) + rest;
      PlayIsRun(WorkerStep(s, i), i, n - 1, rest);
    }
  }

  lemma {:induction false} PlayAdd(s: System, i: Input, m: nat, n: nat)
    ensures Play(s, i, m + n) == Play(Play(s, i, m), i, n)
    decreases m
  {
    if m > 0 {
      PlayAdd(WorkerStep(s, i), i, m - 1, n);
    }
  }

  const DRY := Input(true, true, 0.2, true)

  /** An undisturbed pass through heating, one poll each. */
  lemma HeatPhase(s: System)
    requires s.pc == Heat(HeatPc.Enter) && s.running && s.locked
    ensures var t := Play(s, DRY, 7);
            t.pc == Hold(HoldPc.Enter) && t.running && t.locked && t.exits == s.exits + [Hot]
            && t.processSecs == s.processSecs
  {
    hide Play, WorkerStep;
    HeatStarts(s);
    PlayAdd(s, DRY, 2, 5);
    var t := Play(s, DRY, 2);
    HeatPolls(t);
    PlayAdd(t, DRY, 3, 2);
    HeatEnds(Play(t, DRY, 3));
  }

  lemma HeatStarts(s: System)
    requires s.pc == Heat(HeatPc.Enter)
    ensures Play(s, DRY, 2) == s.(state := Heating, target := HEAT_TARGET, pc := Heat(HeatPc.Running))
  {
  }

  lemma HeatPolls(s: System)
    requires s.pc == Heat(HeatPc.Running) && s.running && s.locked && s.state == Heating
    ensures Play(s, DRY, 3) == s.(pc := Heat(AtTarget))
  {
  }

  lemma HeatEnds(s: System)
    requires s.pc == Heat(AtTarget) && s.running
    ensures Play(s, DRY, 2) == s.(pc := Hold(HoldPc.Enter), exits := s.exits + [Hot])
  {
  }

  lemma HoldStarts(s: System)
    requires s.pc == Hold(HoldPc.Enter)
    ensures Play(s, DRY, 2) == s.(state := Processing, processingStart := s.now, pc := Hold(HoldPc.Running))
  {
  }

  lemma HoldPolls(s: System)
    requires s.pc == Hold(HoldPc.Running) && s.running && s.locked && s.state == Processing
    ensures Play(s, DRY, 3) == s.(pc := Hold(Elapsed))
  {
  }

  lemma HoldEnds(s: System)
    requires s.pc == Hold(Elapsed) && s.running && s.now == s.processingStart + s.processSecs as real
    ensures Play(s, DRY, 3)
            == s.(target := 0.0, pc := Drain(DrainPc.Enter), exits := s.exits + [Held(s.processSecs)])
  {
    hide Play, WorkerStep;
    TimeIsUp(s);
    PlayAdd(s, DRY, 1, 2);
    Cooling(Play(s, DRY, 1));
  }

  lemma TimeIsUp(s: System)
    requires s.pc == Hold(Elapsed) && s.now == s.processingStart + s.processSecs as real
    ensures Play(s, DRY, 1) == s.(pc := Hold(Cold), exits := s.exits + [Held(s.processSecs)])
  {
    assert (s.now - s.processingStart).Floor == s.processSecs;
    assert Play(WorkerStep(s, DRY), DRY, 0) == WorkerStep(s, DRY);
  }

  lemma Cooling(s: System)
    requires s.pc == Hold(Cold) && s.running
    ensures Play(s, DRY, 2) == s.(target := 0.0, pc := Drain(DrainPc.Enter))
  {
  }

  /** Up to the test of the holding time. */
  lemma HoldWaits(s: System)
    requires s.pc == Hold(HoldPc.Enter) && s.running && s.locked
    ensures Play(s, DRY, 5) == s.(state := Processing, processingStart := s.now, pc := Hold(Elapsed))
  {
    hide Play, WorkerStep;
    HoldStarts(s);
    PlayAdd(s, DRY, 2, 3);
    HoldPolls(Play(s, DRY, 2));
  }

  lemma DrainStarts(s: System)
    requires s.pc == Drain(DrainPc.Enter)
    ensures Play(s, DRY, 2) == s.(state := Draining, pump := -1, pc := Drain(DrainPc.Running))
  {
  }

  lemma DrainPolls(s: System)
    requires s.pc == Drain(DrainPc.Running) && s.running && s.state == Draining
    ensures Play(s, DRY, 3) == s.(pc := Drain(DrainPc.Stop), exits := s.exits + [Drained(0.2)])
  {
  }

  lemma DrainEnds(s: System)
    requires s.pc == Drain(DrainPc.Stop) && s.running
    ensures Play(s, DRY, 2) == s.(pump := 0, pc := Done(Unlock))
  {
  }

  lemma Finishing(s: System)
    requires s.pc == Done(Unlock)
    ensures Play(s, DRY, 2) == s.(locked := false, state := Complete, pc := Done(Clear))
  {
  }

  lemma DrainAndFinish(s: System)
    requires s.pc == Drain(DrainPc.Enter) && s.running
    ensures Play(s, DRY, 9).state == Complete && Play(s, DRY, 9).exits == s.exits + [Drained(0.2)]
  {
    hide Play, WorkerStep;
    DrainStarts(s);
    PlayAdd(s, DRY, 2, 7);
    var t := Play(s, DRY, 2);
    DrainPolls(t);
    PlayAdd(t, DRY, 3, 4);
    var u := Play(t, DRY, 3);
    DrainEnds(u);
    PlayAdd(u, DRY, 2, 2);
    Finishing(Play(u, DRY, 2));
  }

  /**
    Such runs exist. If `emergencyStop()` is overtaken between its two statements, the
    worker skips the phase it was in and carries on: here it heats, holds for any configured
    time and completes although the water level never rises above 0.2.
   */
  lemma OvertakenStopCompletes(processSecs: nat, now: real)
    ensures var before := WorkerTimes(DRY, 4) + [CallStop] + WorkerTimes(DRY, 16);
            var s := Run(Started(processSecs, now), before + [Tick(processSecs as real)] + WorkerTimes(DRY, 12));
            && s.state == Complete
            && s.exits == [Interrupted, Hot, Held(processSecs), Drained(0.2)]
  {
    hide Play, WorkerStep, WorkerTimes;
    var s := Started(processSecs, now);
    var wait, rest := [Tick(processSecs as real)], WorkerTimes(DRY, 12);
    var tail := wait + rest;
    StopWhileFilling(processSecs, now);
    var stopped := Advance(Play(s, DRY, 4), CallStop);
    var heating := Play(stopped, DRY, 4);
    HeatPhase(heating);
    var holding := Play(heating, DRY, 7);
    HoldWaits(holding);
    var waiting := Play(holding, DRY, 5);
    var waited := Advance(waiting, Tick(processSecs as real));
    HoldEnds(waited);
    DrainAndFinish(Play(waited, DRY, 3));
    PlayAdd(waited, DRY, 3, 9);
    PlayAdd(heating, DRY, 7, 5);
    PlayAdd(stopped, DRY, 4, 12);
    Schedule(s, stopped, waiting, wait[0], rest);
  }

  /** Four statements, a stop, sixteen statements, one other move and the rest. */
  lemma Schedule(s: System, stopped: System, waiting: System, v: Move, rest: seq<Move>)
    requires stopped == Advance(Play(s, DRY, 4), CallStop) && waiting == Play(stopped, DRY, 16)
    requires rest == WorkerTimes(DRY, 12)
    ensures Run(s, WorkerTimes(DRY, 4) + [CallStop] + WorkerTimes(DRY, 16) + [v] + rest)
            == Play(Advance(waiting, v), DRY, 12)
  {
    hide Play, WorkerStep, WorkerTimes, Advance;
    var last := [v] + rest;
    var middle := [CallStop] + (WorkerTimes(DRY, 16) + last);
    assert WorkerTimes(DRY, 4) + [CallStop] + WorkerTimes(DRY, 16) + [v] + rest == WorkerTimes(DRY, 4) + middle;
    PlayIsRun(s, DRY, 4, middle);
    assert middle[1..] == WorkerTimes(DRY, 16) + last;
    PlayIsRun(stopped, DRY, 16, last);
    assert last[1..] == rest && rest + [] == rest;
    PlayIsRun(Advance(waiting, v), DRY, 12, []);
  }

  lemma FirstSteps(processSecs: int, now: real)
    ensures Play(Started(processSecs, now), DRY, 4)
            == Started(processSecs, now).(pc := Fill(FillPc.Running), state := WaterIntake, pump := 1, locked := true)
  {
    IntoFilling(Started(processSecs, now));
  }

  lemma StopWhileFilling(processSecs: int, now: real)
    ensures var filling := Play(Started(processSecs, now), DRY, 4);
            var t := Play(Advance(filling, CallStop), DRY, 4);
            && filling.pc == Fill(FillPc.Running)
            && t.pc == Heat(HeatPc.Enter) && t.running && t.locked && t.exits == [Interrupted] && t.processSecs == processSecs
  {
    hide Play, WorkerStep;
    FirstSteps(processSecs, now);
    SkipFilling(Advance(Play(Started(processSecs, now), DRY, 4), CallStop));
  }

  /** The poll finds the state changed and the flag still set. */
  lemma SkipFilling(s: System)
    requires s.pc == Fill(FillPc.Running) && s.running && s.state == Error
    ensures Play(s, DRY, 4) == s.(pump := 0, pc := Heat(HeatPc.Enter), exits := s.exits + [Interrupted])
  {
    hide Play, WorkerStep;
    PollInterrupted(s);
    PlayAdd(s, DRY, 2, 2);
    FillEnds(Play(s, DRY, 2));
  }

  lemma PollInterrupted(s: System)
    requires s.pc == Fill(FillPc.Running) && s.running && s.state == Error
    ensures Play(s, DRY, 2) == s.(pc := Fill(FillPc.Stop), exits := s.exits + [Interrupted])
  {
  }

  lemma FillEnds(s: System)
    requires s.pc == Fill(FillPc.Stop) && s.running
    ensures Play(s, DRY, 2) == s.(pump := 0, pc := Heat(HeatPc.Enter))
  {
  }

  /** The seven statements are needed if the flag is cleared before the first one. */
  lemma LongestWayOut(s: System)
    requires s.pc == Init(InitPc.Enter) && !s.running
    ensures Play(s, DRY, 6).pc == Fill(FillPc.Check) && Play(s, DRY, 7).pc == Returned
  {
    hide Play, WorkerStep;
    IntoFilling(s);
    PlayAdd(s, DRY, 4, 2);
    PlayAdd(s, DRY, 4, 3);
    OutOfFilling(Play(s, DRY, 4));
  }

  lemma IntoFilling(s: System)
    requires s.pc == Init(InitPc.Enter)
    ensures Play(s, DRY, 4) == s.(pc := Fill(FillPc.Running), state := WaterIntake, pump := 1, locked := true)
  {
  }

  lemma OutOfFilling(s: System)
    requires s.pc == Fill(FillPc.Running) && !s.running
    ensures Play(s, DRY, 2).pc == Fill(FillPc.Check) && Play(s, DRY, 3).pc == Returned
  {
  }

  // ---------------------------------------------------------------------------------
  // What the polls decide
  // ---------------------------------------------------------------------------------

  /** An undisturbed poll of the filling loop ends it at 8.0, and otherwise changes nothing. */
  lemma FillPoll(s: System, i: Input)
    requires s.pc == Fill(FillPc.Running) && s.running && s.state == WaterIntake && s.locked && i.doorShut
    ensures Play(s, i, 4)
            == if i.level >= 8.0 then s.(pc := Fill(FillPc.Stop), exits := s.exits + [Filled(i.level)]) else s
  {
    hide Play, WorkerStep;
    FillLooks(s, i);
    PlayAdd(s, i, 3, 1);
    FillDecides(Play(s, i, 3), i);
  }

  lemma FillLooks(s: System, i: Input)
    requires s.pc == Fill(FillPc.Running) && s.running && s.state == WaterIntake && s.locked && i.doorShut
    ensures Play(s, i, 3) == s.(pc := Fill(FillPc.Level))
  {
  }

  lemma FillDecides(s: System, i: Input)
    requires s.pc == Fill(FillPc.Level)
    ensures Play(s, i, 1)
            == if i.level >= 8.0 then s.(pc := Fill(FillPc.Stop), exits := s.exits + [Filled(i.level)])
               else s.(pc := Fill(FillPc.Running))
  {
    assert Play(WorkerStep(s, i), i, 0) == WorkerStep(s, i);
  }

  /** An undisturbed poll of the draining loop ends it at 0.3, and otherwise changes nothing. */
  lemma DrainPoll(s: System, i: Input)
    requires s.pc == Drain(DrainPc.Running) && s.running && s.state == Draining
    ensures Play(s, i, 3)
            == if i.level <= 0.3 then s.(pc := Drain(DrainPc.Stop), exits := s.exits + [Drained(i.level)]) else s
  {
  }

  /** An undisturbed poll of the heating loop ends it at the setpoint, and otherwise changes nothing. */
  lemma HeatPoll(s: System, i: Input)
    requires s.pc == Heat(HeatPc.Running) && s.running && s.state == Heating && s.locked && i.doorShut
    ensures Play(s, i, 4) == if i.atTarget then s.(pc := Heat(HeatPc.Check), exits := s.exits + [Hot]) else s
  {
    hide Play, WorkerStep;
    HeatLooks(s, i);
    PlayAdd(s, i, 3, 1);
    HeatDecides(Play(s, i, 3), i);
  }

  lemma HeatLooks(s: System, i: Input)
    requires s.pc == Heat(HeatPc.Running) && s.running && s.state == Heating && s.locked && i.doorShut
    ensures Play(s, i, 3) == s.(pc := Heat(AtTarget))
  {
  }

  lemma HeatDecides(s: System, i: Input)
    requires s.pc == Heat(AtTarget)
    ensures Play(s, i, 1)
            == if i.atTarget then s.(pc := Heat(HeatPc.Check), exits := s.exits + [Hot])
               else s.(pc := Heat(HeatPc.Running))
  {
    assert Play(WorkerStep(s, i), i, 0) == WorkerStep(s, i);
  }

  /** An undisturbed poll of the holding loop ends it after the configured whole seconds, and otherwise changes nothing. */
  lemma HoldPoll(s: System, i: Input)
    requires s.pc == Hold(HoldPc.Running) && s.running && s.state == Processing && s.locked && i.doorShut
    ensures var elapsed := (s.now - s.processingStart).Floor;
            Play(s, i, 4)
            == if elapsed >= s.processSecs then s.(pc := Hold(Cold), exits := s.exits + [Held(elapsed)]) else s
  {
    hide Play, WorkerStep;
    HoldLooks(s, i);
    PlayAdd(s, i, 3, 1);
    HoldDecides(Play(s, i, 3), i);
  }

  lemma HoldLooks(s: System, i: Input)
    requires s.pc == Hold(HoldPc.Running) && s.running && s.state == Processing && s.locked && i.doorShut
    ensures Play(s, i, 3) == s.(pc := Hold(Elapsed))
  {
  }

  lemma HoldDecides(s: System, i: Input)
    requires s.pc == Hold(Elapsed)
    ensures var elapsed := (s.now - s.processingStart).Floor;
            Play(s, i, 1)
            == if elapsed >= s.processSecs then s.(pc := Hold(Cold), exits := s.exits + [Held(elapsed)])
               else s.(pc := Hold(HoldPc.Running))
  {
    assert Play(WorkerStep(s, i), i, 0) == WorkerStep(s, i);
  }

  // ---------------------------------------------------------------------------------
  // An open door
  // ---------------------------------------------------------------------------------

  predicate NoOperator(moves: seq<Move>) {
    forall k :: 0 <= k < |moves| ==> moves[k].Worker? || moves[k].Tick?
  }

  /** On the way out after the door was found open. */
  predicate Failing(s: System) {
    match s.pc
    case Fill(p) => (p == FillPc.DoorStop || (p == FillPc.DoorFail && s.pump == 0)) && s.target == 0.0
    case Heat(p) =>
      || p == HeatPc.DoorCold
      || (s.target == 0.0 && (p == HeatPc.DoorStop || (p == HeatPc.DoorFail && s.pump == 0)))
    case Hold(p) =>
      || p == HoldPc.DoorCold
      || (s.target == 0.0 && (p == HoldPc.DoorStop || (p == HoldPc.DoorFail && s.pump == 0)))
    case Returned => s.state == Error && s.pump == 0 && s.target == 0.0
    case _ => false
  }

  function FailStatements(pc: Pc): nat {
    match pc
    case Fill(p) => if p == FillPc.DoorStop then 2 else 1
    case Heat(p) => if p == HeatPc.DoorCold then 3 else if p == HeatPc.DoorStop then 2 else 1
    case Hold(p) => if p == HoldPc.DoorCold then 3 else if p == HoldPc.DoorStop then 2 else 1
    case _ => 0
  }

  lemma FailingMove(s: System, v: Move)
    requires Failing(s) && (v.Worker? || v.Tick?)
    ensures var t := Advance(s, v);
            && Failing(t) && t.exits == s.exits
            && FailStatements(t.pc) <= FailStatements(s.pc) - (if v.Worker? && s.pc != Returned then 1 else 0)
  {
  }

  lemma {:induction false} FailingRun(s: System, moves: seq<Move>)
    requires Failing(s) && NoOperator(moves) && WorkerMoves(moves) >= FailStatements(s.pc)
    ensures var t := Run(s, moves);
            t.pc == Returned && t.state == Error && t.pump == 0 && t.target == 0.0 && t.exits == s.exits
    decreases |moves|
  {
    hide Failing, Advance, FailStatements;
    FailedWhenReturned(s);
    if moves != [] {
      FailingMove(s, moves[0]);
      FailedWhenReturned(Advance(s, moves[0]));
      FailingRun(Advance(s, moves[0]), moves[1..]);
    }
  }

  lemma FailedWhenReturned(s: System)
    requires Failing(s)
    ensures FailStatements(s.pc) == 0 <==> s.pc == Returned
    ensures FailStatements(s.pc) <= 3
    ensures s.pc == Returned ==> s.state == Error && s.pump == 0 && s.target == 0.0
  {
  }

  /**
    A door that is seen open or unlocked while filling, heating or holding ends the run: at most
    three statements later the state is `Error`, the pump is off and the heater has no target.
   */
  lemma OpenDoorEndsRun(s: System, i: Input, moves: seq<Move>)
    requires SafeInv(s) && s.pc in {Fill(FillPc.Door), Heat(HeatPc.Door), Hold(HoldPc.Door)}
    requires !s.locked || !i.doorShut
    requires NoOperator(moves) && WorkerMoves(moves) >= 3
    ensures var t := Run(WorkerStep(s, i), moves);
            t.pc == Returned && t.state == Error && t.pump == 0 && t.target == 0.0 && t.exits == s.exits
  {
    DoorSeen(s, i);
    FailedWhenReturned(WorkerStep(s, i));
    FailingRun(WorkerStep(s, i), moves);
  }

  lemma DoorSeen(s: System, i: Input)
    requires SafeInv(s) && s.pc in {Fill(FillPc.Door), Heat(HeatPc.Door), Hold(HoldPc.Door)}
    requires !s.locked || !i.doorShut
    ensures Failing(WorkerStep(s, i)) && WorkerStep(s, i).exits == s.exits
  {
  }

  /** A door that does not lock ends the run before anything is switched on. */
  lemma LockFails(processSecs: int, now: real, i: Input)
    requires !i.lockOk
    ensures Play(Started(processSecs, now), i, 3) == Started(processSecs, now).(state := Error, pc := Returned)
  {
  }

  // ---------------------------------------------------------------------------------
  // The actuators and the calls
  // ---------------------------------------------------------------------------------

  /** In the polling loops of heating and holding the heater has its setpoint. */
  predicate HeaterInv(s: System) {
    match s.pc
    case Heat(p) => p in {HeatPc.Running, HeatPc.State, HeatPc.Door, AtTarget} ==> s.target == 85.0
    case Hold(p) => p in {HoldPc.Running, HoldPc.State, HoldPc.Door, Elapsed} ==> s.target == 85.0
    case _ => true
  }

  /** On the way from heating to holding the setpoint stays. */
  predicate HeaterOn(s: System) {
    && HeaterInv(s)
    && (s.pc in {Heat(HeatPc.Check), Hold(HoldPc.Enter), Hold(Clock)} ==> s.target == 85.0)
  }

  lemma HeaterWorker(s: System, i: Input)
    requires HeaterOn(s)
    ensures HeaterOn(WorkerStep(s, i))
  {
    hide HeatStep, HoldStep;
    match s.pc
    case Heat(pc) => HeaterHeat(s, pc, i);
    case Hold(pc) => HeaterHold(s, pc, i);
    case _ =>
  }

  lemma HeaterHeat(s: System, pc: HeatPc, i: Input)
    requires HeaterOn(s) && s.pc == Heat(pc)
    ensures HeaterOn(HeatStep(s, pc, i))
  {
  }

  lemma HeaterHold(s: System, pc: HoldPc, i: Input)
    requires HeaterOn(s) && s.pc == Hold(pc)
    ensures HeaterOn(HoldStep(s, pc, i))
  {
  }

  /** Under every interleaving the heater is at 85 degrees whenever heating or holding polls. */
  lemma {:induction false} HeaterPolls(s: System, moves: seq<Move>)
    requires HeaterOn(s)
    ensures HeaterOn(Run(s, moves))
    decreases |moves|
  {
    hide HeaterOn;
    if moves != [] {
      HeaterMove(s, moves[0]);
      HeaterPolls(Advance(s, moves[0]), moves[1..]);
    }
  }

  lemma HeaterMove(s: System, v: Move)
    requires HeaterOn(s)
    ensures HeaterOn(Advance(s, v))
  {
    if v.Worker? {
      HeaterWorker(s, v.input);
    }
  }

  /** In the polling loops of filling and draining the pump runs in its direction. */
  predicate PumpInv(s: System) {
    match s.pc
    case Fill(p) => p in {FillPc.Running, FillPc.State, FillPc.Door, FillPc.Level} ==> s.pump == 1
    case Drain(p) => p in {DrainPc.Running, DrainPc.State, DrainPc.Level} ==> s.pump == -1
    case _ => true
  }

  lemma PumpWorker(s: System, i: Input)
    requires PumpInv(s)
    ensures PumpInv(WorkerStep(s, i)) && WorkerStep(s, i).calls == s.calls
  {
    hide FillStep, DrainStep;
    match s.pc
    case Fill(pc) => PumpFill(s, pc, i);
    case Drain(pc) => PumpDrain(s, pc, i);
    case _ =>
  }

  lemma PumpFill(s: System, pc: FillPc, i: Input)
    requires PumpInv(s) && s.pc == Fill(pc)
    ensures PumpInv(FillStep(s, pc, i)) && FillStep(s, pc, i).calls == s.calls
  {
  }

  lemma PumpDrain(s: System, pc: DrainPc, i: Input)
    requires PumpInv(s) && s.pc == Drain(pc)
    ensures PumpInv(DrainStep(s, pc, i)) && DrainStep(s, pc, i).calls == s.calls
  {
  }

  /** Without resets the pump fills whenever filling polls, and drains whenever draining polls. */
  lemma {:induction false} PumpPolls(s: System, moves: seq<Move>)
    requires PumpInv(s) && CallReset !in moves && forall k :: 0 <= k < |s.calls| ==> s.calls[k] == StopSecond
    ensures PumpInv(Run(s, moves))
    decreases |moves|
  {
    hide PumpInv;
    if moves != [] {
      PumpMove(s, moves[0]);
      PumpPolls(Advance(s, moves[0]), moves[1..]);
    }
  }

  lemma PumpMove(s: System, v: Move)
    requires PumpInv(s) && v != CallReset && forall k :: 0 <= k < |s.calls| ==> s.calls[k] == StopSecond
    ensures PumpInv(Advance(s, v))
    ensures forall k :: 0 <= k < |Advance(s, v).calls| ==> Advance(s, v).calls[k] == StopSecond
  {
    if v.Worker? {
      PumpWorker(s, v.input);
    }
  }

  /** The two calls, undisturbed: a stop stores `Error` and clears the flag; a reset stops the pump, unlocks and stores `Idle`. */
  lemma CallsAlone(s: System)
    requires s.calls == []
    ensures Advance(Advance(s, CallStop), Continue(0)) == s.(state := Error, running := false)
    ensures var t := Advance(Advance(Advance(Advance(s, CallReset), Continue(0)), Continue(0)), Continue(0));
            t == if s.state in {Complete, Error} then s.(pump := 0, locked := false, state := Idle) else s
  {
    var stopping := Advance(s, CallStop);
    assert Removed(stopping.calls, 0) == [];
    var asked := Advance(s, CallReset);
    if s.state in {Complete, Error} {
      var stopped := Advance(asked, Continue(0));
      assert stopped.calls == [ResetDoor];
      var unlocked := Advance(stopped, Continue(0));
      assert unlocked.calls == [ResetState] && Removed(unlocked.calls, 0) == [];
    }
  }

  // ---------------------------------------------------------------------------------
  // A cycle that goes well
  // ---------------------------------------------------------------------------------

  const FULL := Input(true, true, 8.0, true)

  lemma StartsFilling(s: System)
    requires s.pc == Init(InitPc.Enter)
    ensures Play(s, FULL, 4) == s.(pc := Fill(FillPc.Running), state := WaterIntake, pump := 1, locked := true)
  {
  }

  lemma StopsFilling(s: System)
    requires s.pc == Fill(FillPc.Stop) && s.running
    ensures Play(s, FULL, 2) == s.(pump := 0, pc := Heat(HeatPc.Enter))
  {
  }

  /** Lock, fill to 8.0 and stop the pump. */
  lemma FillPhase(processSecs: int, now: real)
    ensures var t := Play(Started(processSecs, now), FULL, 10);
            t == Started(processSecs, now).(pc := Heat(HeatPc.Enter), state := WaterIntake, locked := true,
                                            exits := [Filled(8.0)])
  {
    hide Play, WorkerStep;
    var s := Started(processSecs, now);
    StartsFilling(s);
    PlayAdd(s, FULL, 4, 6);
    var polling := Play(s, FULL, 4);
    FillPoll(polling, FULL);
    PlayAdd(polling, FULL, 4, 2);
    StopsFilling(Play(polling, FULL, 4));
  }

  /** Drained, unlocked and returned. */
  lemma DrainAndReturn(s: System)
    requires s.pc == Drain(DrainPc.Enter) && s.running
    ensures Play(s, DRY, 10)
            == s.(state := Complete, running := false, pump := 0, locked := false, pc := Returned,
                  exits := s.exits + [Drained(0.2)])
  {
    hide Play, WorkerStep;
    DrainStarts(s);
    PlayAdd(s, DRY, 2, 8);
    var t := Play(s, DRY, 2);
    DrainPolls(t);
    PlayAdd(t, DRY, 3, 5);
    var u := Play(t, DRY, 3);
    DrainEnds(u);
    PlayAdd(u, DRY, 2, 3);
    var v := Play(u, DRY, 2);
    Finishing(v);
    PlayAdd(v, DRY, 2, 1);
    Clearing(Play(v, DRY, 2));
  }

  lemma Clearing(s: System)
    requires s.pc == Done(Clear)
    ensures Play(s, DRY, 1) == s.(running := false, pc := Returned)
  {
    assert Play(WorkerStep(s, DRY), DRY, 0) == WorkerStep(s, DRY);
  }

  /** With the tank filled, the setpoint reached, the time waited for and the tank emptied, a cycle completes. */
  lemma CycleCompletes(processSecs: nat, now: real)
    ensures var before := WorkerTimes(FULL, 10) + WorkerTimes(DRY, 12);
            var t := Run(Started(processSecs, now), before + [Tick(processSecs as real)] + WorkerTimes(DRY, 13));
            && t.pc == Returned && t.state == Complete && !t.running && t.pump == 0 && t.target == 0.0 && !t.locked
            && t.exits == [Filled(8.0), Hot, Held(processSecs), Drained(0.2)]
  {
    hide Play, WorkerStep, WorkerTimes, Run, Advance;
    var s := Started(processSecs, now);
    FillPhase(processSecs, now);
    var heating := Play(s, FULL, 10);
    HeatPhase(heating);
    var holding := Play(heating, DRY, 7);
    HoldWaits(holding);
    var waiting := Play(holding, DRY, 5);
    var v := Tick(processSecs as real);
    var waited := Advance(waiting, v);
    Waited(waiting, processSecs);
    HoldEnds(waited);
    DrainAndReturn(Play(waited, DRY, 3));
    PlayAdd(waited, DRY, 3, 10);
    PlayAdd(heating, DRY, 7, 5);
    var rest := WorkerTimes(DRY, 13);
    var last := [v] + rest;
    assert WorkerTimes(FULL, 10) + WorkerTimes(DRY, 12) + [v] + rest == WorkerTimes(FULL, 10) + (WorkerTimes(DRY, 12) + last);
    PlayIsRun(s, FULL, 10, WorkerTimes(DRY, 12) + last);
    PlayIsRun(heating, DRY, 12, last);
    RunHead(waiting, v, rest);
    assert rest + [] == rest;
    PlayIsRun(waited, DRY, 13, []);
    RunNothing(Play(waited, DRY, 13));
  }

  lemma Waited(s: System, secs: nat)
    ensures Advance(s, Tick(secs as real)) == s.(now := s.now + secs as real)
  {
  }

  lemma RunHead(s: System, v: Move, rest: seq<Move>)
    ensures Run(s, [v] + rest) == Run(Advance(s, v), rest)
  {
    assert ([v] + rest)[1..] == rest;
  }

  lemma RunNothing(s: System)
    ensures Run(s, []) == s
  {
  }
}
