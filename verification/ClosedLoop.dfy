/**
  Controller and machine joined by an unreliable network (hil/controller/src/main_hil.cpp,
  hil/simulator_hil.py). Whatever has once been published may be delivered at any later time,
  in any order, repeatedly or never; a tick of the machine, a delivery and each half of a
  control cycle are separate moves, interleaved at will.
 */
module ClosedLoop {
  import opened Hil
  import opened Wrappers

  /** Where the 20 ms loop is: about to call `step`, or about to read the buffer again and publish. */
  datatype Control = AtStep | AtPublish(seen: HilState)

  datatype System = System(
    machine: Machine, fsm: Fsm, buffer: Frame, pc: Control,
    sensors: seq<SensorMsg>, commands: seq<Command>
  )

  const START := System(AT_REST, POWER_ON, NO_FRAME, AtStep, [], [])

  const COMMAND_TOPIC := "command/actuator/conveyor"

  datatype Move =
    | MachineTick(dt: real, lag: real, wave: real, ts: int)
    | DeliverSensor(i: nat)
    | DeliverCommand(i: nat)
    | ControlMove
    | OperatorHalt
    | OperatorReset

  function ControlStep(s: System): System {
    match s.pc
    case AtStep =>
      var m := s.fsm.Step(s.buffer);
      s.(fsm := m, pc := AtPublish(m.state))
    case AtPublish(seen) =>
      if seen == Running && s.buffer.valid then
        var sp := ComputeSetpoint(s.buffer);
        s.(pc := AtStep, commands := s.commands + [Command(Some(sp.speed), Some(sp.coolrate))])
      else
        s.(pc := AtStep)
  }

  function Advance(s: System, v: Move): System {
    match v
    case MachineTick(dt, lag, wave, ts) =>
      var p := Tick(s.machine, dt, lag, wave);
      s.(machine := p, sensors := s.sensors + SensorFrames(p, ts))
    case DeliverSensor(i) => if i < |s.sensors| then s.(buffer := Parse(s.sensors[i])) else s
    case DeliverCommand(i) =>
      if i < |s.commands| then s.(machine := Apply(s.machine, COMMAND_TOPIC, s.commands[i])) else s
    case ControlMove => ControlStep(s)
    case OperatorHalt => s.(fsm := s.fsm.Goto(EmergencyStop))
    case OperatorReset => s.(fsm := s.fsm.Reset())
  }

  function Run(s: System, moves: seq<Move>): System
    decreases |moves|
  {
    if moves == [] then s else Run(Advance(s, moves[0]), moves[1..])
  }

  /** Time does not run backwards; the two transcendental values are in their ranges. */
  predicate Physical(v: Move) {
    v.MachineTick? ==> v.dt >= 0.0 && 0.0 <= v.lag <= 1.0 && -1.0 <= v.wave <= 1.0
  }

  predicate AllPhysical(moves: seq<Move>) {
    forall i :: 0 <= i < |moves| ==> Physical(moves[i])
  }

  // ---------------------------------------------------------------------------------
  // Safety of every run
  // ---------------------------------------------------------------------------------

  predicate GoodMachine(p: Machine) {
    && (p.speed == 0.0 || 0.1 <= p.speed <= 0.5)
    && p.coolrate in {0.0, 1.0}
    && 20.0 <= p.temp <= 75.0 && 0.9 <= p.pressure <= 1.1 && p.pos >= 0.0
  }

  predicate GoodSensor(m: SensorMsg) {
    && (m.temp.Some? ==> 20.0 <= m.temp.value <= 75.0)
    && (m.pressure.Some? ==> 0.9 <= m.pressure.value <= 1.1)
    && (m.pos.Some? ==> m.pos.value >= 0.0)
  }

  predicate GoodCommand(c: Command) {
    c.speed.Some? && 0.1 <= c.speed.value <= 0.5 && c.coolrate.Some? && c.coolrate.value in {0.0, 1.0}
  }

  predicate GoodFrame(f: Frame) {
    20.0 <= f.temp <= 75.0 && 0.9 <= f.pressure <= 1.1 && f.pos >= 0.0
  }

  /** Some published message reported more than 60 degrees. */
  predicate HotSeen(sensors: seq<SensorMsg>) {
    exists i :: 0 <= i < |sensors| && Or(sensors[i].temp, 20.0) > 60.0
  }

  predicate Inv(s: System) {
    && GoodMachine(s.machine)
    && (forall i :: 0 <= i < |s.sensors| ==> GoodSensor(s.sensors[i]))
    && (forall i :: 0 <= i < |s.commands| ==> GoodCommand(s.commands[i]))
    && GoodFrame(s.buffer)
    && (s.buffer.temp > 60.0 ==> HotSeen(s.sensors))
    && (forall i :: 0 <= i < |s.commands| ==> s.commands[i].coolrate == Some(1.0) ==> HotSeen(s.sensors))
    && (s.machine.coolrate == 1.0 ==> HotSeen(s.sensors))
    && s.fsm.state != Fault
  }

  /** The rounded readings of a machine within its limits are within the same limits. */
  lemma ReadingsAreGood(p: Machine, ts: int)
    requires GoodMachine(p)
    ensures forall i :: 0 <= i < |SensorFrames(p, ts)| ==> GoodSensor(SensorFrames(p, ts)[i])
  {
    hide RoundTo;
    RoundToBounds(p.temp, 100.0, 2000, 7500);
    RoundToBounds(p.pressure, 1000.0, 900, 1100);
    RoundToBounds(p.pos, 10000.0, 0, (p.pos * 10000.0).Floor + 1);
  }

  lemma TickIsGood(p: Machine, v: Move)
    requires GoodMachine(p) && v.MachineTick? && Physical(v)
    ensures GoodMachine(Tick(p, v.dt, v.lag, v.wave)) && Tick(p, v.dt, v.lag, v.wave).pos >= p.pos
    ensures Tick(p, v.dt, v.lag, v.wave).coolrate == p.coolrate
  {
    hide Blend;
    TickTemperature(p, v.dt, v.lag, v.wave);
    ProductSign(p.speed, v.dt);
  }

  /** Within the limits the setpoint asks for a speed well inside [0.1, 0.5]. */
  lemma SetpointIsGood(f: Frame)
    requires GoodFrame(f)
    ensures 0.26 <= ComputeSetpoint(f).speed <= 0.44 && ComputeSetpoint(f).coolrate in {0.0, 1.0}
    ensures ComputeSetpoint(f).coolrate == 1.0 <==> f.temp > 60.0
  {
  }

  lemma TopicIsConveyor()
    ensures Contains(COMMAND_TOPIC, "conveyor")
  {
    assert OccursAt(COMMAND_TOPIC, "conveyor", 17);
  }

  lemma HotSeenGrows(a: seq<SensorMsg>, b: seq<SensorMsg>)
    requires HotSeen(a)
    ensures HotSeen(a + b)
  {
    var i :| 0 <= i < |a| && Or(a[i].temp, 20.0) > 60.0;
    assert (a + b)[i] == a[i];
  }

  lemma AdvanceKeepsInv(s: System, v: Move)
    requires Inv(s) && Physical(v)
    ensures Inv(Advance(s, v))
    ensures Advance(s, v).machine.pos >= s.machine.pos
  {
    hide HotSeen, ComputeSetpoint, SensorFrames, Tick, Contains;
    match v
    case MachineTick(dt, lag, wave, ts) =>
      var p := Tick(s.machine, dt, lag, wave);
      TickIsGood(s.machine, v);
      ReadingsAreGood(p, ts);
      if HotSeen(s.sensors) {
        HotSeenGrows(s.sensors, SensorFrames(p, ts));
      }
    case DeliverSensor(i) =>
      if i < |s.sensors| {
        SeenWhenDelivered(s.sensors, i);
      }
    case DeliverCommand(i) =>
      TopicIsConveyor();
    case ControlMove =>
      SetpointIsGood(s.buffer);
    case OperatorHalt =>
    case OperatorReset =>
  }

  lemma SeenWhenDelivered(sensors: seq<SensorMsg>, i: nat)
    requires i < |sensors|
    ensures Parse(sensors[i]).temp > 60.0 ==> HotSeen(sensors)
  {
  }

  lemma {:induction false} RunKeepsInv(s: System, moves: seq<Move>)
    requires Inv(s) && AllPhysical(moves)
    ensures Inv(Run(s, moves))
    ensures Run(s, moves).machine.pos >= s.machine.pos
    decreases |moves|
  {
    hide Inv, Advance;
    if moves != [] {
      AdvanceKeepsInv(s, moves[0]);
      RunKeepsInv(Advance(s, moves[0]), moves[1..]);
    }
  }

  /**
    From power-on, under any loss, delay, reordering or repetition of messages and any operator
    calls: the controller never enters `Fault`; the machine stays within its temperature and
    pressure bands; every command asks for a speed in [0.1, 0.5] and a cooling rate of 0 or 1,
    and for cooling only after a reading above 60 degrees.
   */
  lemma ClosedLoopIsSafe(moves: seq<Move>)
    requires AllPhysical(moves)
    ensures var s := Run(START, moves);
            && s.fsm.state != Fault
            && 20.0 <= s.machine.temp <= 75.0 && 0.9 <= s.machine.pressure <= 1.1
            && (forall i :: 0 <= i < |s.sensors| ==> GoodSensor(s.sensors[i]))
            && (forall i :: 0 <= i < |s.commands| ==>
                  && GoodCommand(s.commands[i])
                  && (s.commands[i].coolrate == Some(1.0) ==> HotSeen(s.sensors)))
  {
    RunKeepsInv(START, moves);
  }

  lemma {:induction false} RunAppend(s: System, a: seq<Move>, b: seq<Move>)
    ensures Run(s, a + b) == Run(Run(s, a), b)
    decreases |a|
  {
    if a == [] {
      assert a + b == b;
    } else {
      assert (a + b)[1..] == a[1..] + b;
      RunAppend(Advance(s, a[0]), a[1..], b);
    }
  }

  /** The conveyor never moves backwards, whatever commands arrive in whatever order. */
  lemma ConveyorAdvances(earlier: seq<Move>, later: seq<Move>)
    requires AllPhysical(earlier) && AllPhysical(later)
    ensures Run(START, earlier).machine.pos <= Run(START, earlier + later).machine.pos
  {
    RunKeepsInv(START, earlier);
    RunAppend(START, earlier, later);
    RunKeepsInv(Run(START, earlier), later);
  }

  /** What the conveyor travels: the speed at each tick times its length. */
  function Travelled(s: System, moves: seq<Move>): real
    decreases |moves|
  {
    if moves == [] then 0.0
    else
      var way := if moves[0].MachineTick? then s.machine.speed * moves[0].dt else 0.0;
      way + Travelled(Advance(s, moves[0]), moves[1..])
  }

  /** Over any run the position is the sum of the ways of the ticks, and nothing else moves it. */
  lemma {:induction false} PositionIsSum(s: System, moves: seq<Move>)
    ensures Run(s, moves).machine.pos == s.machine.pos + Travelled(s, moves)
    decreases |moves|
  {
    hide Advance;
    if moves != [] {
      WayOfMove(s, moves[0]);
      PositionIsSum(Advance(s, moves[0]), moves[1..]);
    }
  }

  lemma WayOfMove(s: System, v: Move)
    ensures Advance(s, v).machine.pos
            == s.machine.pos + if v.MachineTick? then s.machine.speed * v.dt else 0.0
  {
    hide SensorFrames, Tick, Contains, ComputeSetpoint;
    if v.MachineTick? {
      TickFrame(s.machine, v.dt, v.lag, v.wave);
    }
  }

  /**
    A delivered reading, one control cycle and the delivery of its command set the machine:
    the commanded speed is 0.5 less a 320th of each degree, and it is cooled exactly above 60 degrees.
   */
  lemma CommandFollowsReading(s: System, i: nat)
    requires s.fsm.state == Running && s.pc == AtStep && i < |s.sensors|
    requires var f := Parse(s.sensors[i]); f.temp <= 85.0 && f.pressure <= 5.0
    ensures var temp := Or(s.sensors[i].temp, 20.0);
            var speed, cooling := 0.5 - temp / 320.0, if temp > 60.0 then 1.0 else 0.0;
            var t := Run(s, [DeliverSensor(i), ControlMove, ControlMove]);
            && t.commands == s.commands + [Command(Some(speed), Some(cooling))] && t.machine == s.machine
            && Advance(t, DeliverCommand(|s.commands|)).machine == s.machine.(speed := speed, coolrate := cooling)
  {
    hide SensorFrames, Tick, Contains, Run;
    ThreeMoves(s, DeliverSensor(i), ControlMove, ControlMove);
    TopicIsConveyor();
  }

  lemma ThreeMoves(s: System, u: Move, v: Move, w: Move)
    ensures Run(s, [u, v, w]) == Advance(Advance(Advance(s, u), v), w)
  {
    hide Advance;
    var t := Advance(Advance(s, u), v);
    assert [u, v, w][1..] == [v, w] && [v, w][1..] == [w];
    assert Run(t, [w]) == Run(Advance(t, w), []);
  }

  /** No other move publishes a command, and none is published from another state. */
  lemma SilentUnlessRunning(s: System, v: Move)
    requires Advance(s, v).commands != s.commands
    ensures v == ControlMove && s.pc == AtPublish(Running) && s.buffer.valid
  {
    hide SensorFrames, Tick, Contains;
  }

  predicate NoOperator(moves: seq<Move>) {
    forall i :: 0 <= i < |moves| ==> !moves[i].OperatorHalt? && !moves[i].OperatorReset?
  }

  /** Once running, the controller keeps running until an operator intervenes. */
  lemma {:induction false} KeepsRunning(s: System, moves: seq<Move>)
    requires Inv(s) && AllPhysical(moves) && NoOperator(moves) && s.fsm.state == Running
    ensures Run(s, moves).fsm.state == Running
    decreases |moves|
  {
    hide Inv;
    if moves != [] {
      AdvanceKeepsInv(s, moves[0]);
      NoFaultFromGoodBuffer(s);
      KeepsRunning(Advance(s, moves[0]), moves[1..]);
    }
  }

  lemma NoFaultFromGoodBuffer(s: System)
    requires Inv(s)
    ensures !Breach(s.buffer)
  {
  }

  lemma StoppedMove(s: System, v: Move)
    requires s.fsm.state == EmergencyStop && !v.OperatorHalt? && !v.OperatorReset?
    ensures var t := Advance(s, v);
            && t.fsm.state == EmergencyStop && (t.pc == AtPublish(Running) ==> s.pc == AtPublish(Running))
            && |t.commands| <= |s.commands| + (if s.pc == AtPublish(Running) && t.pc == AtStep then 1 else 0)
  {
    hide SensorFrames, Tick, Contains, ComputeSetpoint;
  }

  /**
    After an operator's halt the controller stays in the emergency stop until a reset, and publishes
    at most the one command that it had already decided on.
   */
  lemma {:induction false} StaysStopped(s: System, moves: seq<Move>)
    requires NoOperator(moves) && s.fsm.state == EmergencyStop
    ensures var t := Run(s, moves);
            t.fsm.state == EmergencyStop && |t.commands| <= |s.commands| + (if s.pc == AtPublish(Running) then 1 else 0)
    decreases |moves|
  {
    hide Advance;
    if moves != [] {
      StoppedMove(s, moves[0]);
      StaysStopped(Advance(s, moves[0]), moves[1..]);
    }
  }

  /** The two operator calls on the loop. */
  lemma OperatorCalls(s: System)
    ensures var t := Advance(s, OperatorHalt);
            t.fsm.state == EmergencyStop && t == s.(fsm := t.fsm)
    ensures var t := Advance(s, OperatorReset);
            && t == s.(fsm := t.fsm)
            && t.fsm.state == (if s.fsm.state in {Fault, EmergencyStop} then Standby else s.fsm.state)
  {
  }

  // ---------------------------------------------------------------------------------
  // Starting up
  // ---------------------------------------------------------------------------------

  predicate Delivers(s: System, v: Move) {
    v.DeliverSensor? && v.i < |s.sensors|
  }

  /** Some move of the run delivers a sensor message. */
  predicate AnyDelivered(s: System, moves: seq<Move>)
    decreases |moves|
  {
    moves != [] && (Delivers(s, moves[0]) || AnyDelivered(Advance(s, moves[0]), moves[1..]))
  }

  /** The buffer becomes valid with the first delivery and is never invalid again: gaps cannot occur. */
  lemma {:induction false} ValidIffDelivered(s: System, moves: seq<Move>)
    ensures Run(s, moves).buffer.valid <==> s.buffer.valid || AnyDelivered(s, moves)
    decreases |moves|
  {
    if moves != [] {
      BufferMove(s, moves[0]);
      ValidIffDelivered(Advance(s, moves[0]), moves[1..]);
    }
  }

  lemma BufferMove(s: System, v: Move)
    ensures Advance(s, v).buffer.valid <==> s.buffer.valid || Delivers(s, v)
  {
    hide SensorFrames, Tick, Apply, ComputeSetpoint;
  }

  function ControlMoves(moves: seq<Move>): nat {
    if moves == [] then 0 else (if moves[0].ControlMove? then 1 else 0) + ControlMoves(moves[1..])
  }

  /** The control moves left at most until the controller runs, if the buffer stays valid. */
  function StartUp(s: System): nat {
    var steps :=
      match s.fsm.state
      case Standby => 6
      case Initialising => if s.fsm.initCounter < 4 then 5 - s.fsm.initCounter else 1
      case _ => 0;
    if steps == 0 then 0 else 2 * steps - (if s.pc == AtStep then 1 else 0)
  }

  lemma StartUpMove(s: System, v: Move)
    requires Inv(s) && s.buffer.valid && !v.OperatorHalt? && !v.OperatorReset?
    requires s.fsm.state in {Standby, Initialising, Running}
    ensures var t := Advance(s, v);
            && t.fsm.state in {Standby, Initialising, Running}
            && StartUp(t) <= StartUp(s) - (if v.ControlMove? && s.fsm.state != Running then 1 else 0)
  {
    hide SensorFrames, Tick, Apply, ComputeSetpoint, Inv;
    NoFaultFromGoodBuffer(s);
  }

  /**
    Readings are counted, not messages: once the buffer is valid, `StartUp` moves of the control
    loop (at most six `step` calls) lead to `Running`, whatever else happens meanwhile, even if
    nothing more is ever delivered.
   */
  lemma {:induction false} StartsRunning(s: System, moves: seq<Move>)
    requires Inv(s) && AllPhysical(moves) && NoOperator(moves) && s.buffer.valid
    requires s.fsm.state in {Standby, Initialising, Running}
    requires ControlMoves(moves) >= StartUp(s)
    ensures Run(s, moves).fsm.state == Running
    decreases |moves|
  {
    hide Inv, Advance;
    if s.fsm.state == Running {
      KeepsRunning(s, moves);
    } else {
      StartUpPositive(s);
      var t := Advance(s, moves[0]);
      AdvanceKeepsInv(s, moves[0]);
      BufferMove(s, moves[0]);
      StartUpMove(s, moves[0]);
      StartsRunning(t, moves[1..]);
    }
  }

  lemma StartUpPositive(s: System)
    ensures s.fsm.state in {Standby, Initialising} ==> StartUp(s) > 0
    ensures s.fsm.initCounter >= 0 ==> StartUp(s) <= 12 && (s.pc == AtStep ==> StartUp(s) <= 11)
  {
  }

  /**
    One message is enough: after a single tick of the machine and the delivery of one of its
    messages, the control loop on its own reaches `Running`, reading the same frame five times.
   */
  lemma OneMessageSuffices(tick: Move, i: nat, control: seq<Move>)
    requires tick.MachineTick? && Physical(tick) && i < 3
    requires |control| >= 11 && forall k :: 0 <= k < |control| ==> control[k] == ControlMove
    ensures Run(START, [tick, DeliverSensor(i)] + control).fsm.state == Running
  {
    hide Advance;
    var early := [tick, DeliverSensor(i)];
    var s := Run(START, early);
    AfterOneMessage(tick, i);
    AllControl(control);
    RunKeepsInv(START, early);
    StartUpPositive(s);
    StartsRunning(s, control);
    RunAppend(START, early, control);
  }

  lemma AfterOneMessage(tick: Move, i: nat)
    requires tick.MachineTick? && Physical(tick) && i < 3
    ensures var s := Run(START, [tick, DeliverSensor(i)]);
            s.buffer.valid && s.fsm == POWER_ON && s.pc == AtStep
  {
    hide Tick, RoundTo;
    var moved := Advance(START, tick);
    assert [tick, DeliverSensor(i)][1..] == [DeliverSensor(i)];
    assert Run(moved, [DeliverSensor(i)]) == Run(Advance(moved, DeliverSensor(i)), []);
  }

  lemma {:induction false} AllControl(control: seq<Move>)
    requires forall k :: 0 <= k < |control| ==> control[k] == ControlMove
    ensures ControlMoves(control) == |control|
  {
    if control != [] {
      AllControl(control[1..]);
    }
  }
}
