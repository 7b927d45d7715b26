/**
  The hardware-in-the-loop controller and the simulated machine, one at a time
  (hil/controller/src/HilFsm.cpp, hil/simulator_hil.py).
 */
module Hil {
  import opened Wrappers

  // ---------------------------------------------------------------------------------
  // The controller
  // ---------------------------------------------------------------------------------

  datatype HilState = Standby | Initialising | Running | Fault | EmergencyStop

  /** `SensorFrame`; the default is what the buffer holds before the first message. */
  datatype Frame = Frame(pos: real, temp: real, pressure: real, ts: int, valid: bool)

  const NO_FRAME := Frame(0.0, 20.0, 1.0, 0, false)

  datatype Transition = Transition(from: HilState, to: HilState)

  datatype Fsm = Fsm(state: HilState, initCounter: int, history: seq<Transition>) {
    function Goto(next: HilState): Fsm {
      this.(state := next, history := history + [Transition(state, next)])
    }

    /** `step`, on the frame that the buffer holds. */
    function Step(f: Frame): Fsm {
      if Breach(f) then
        if state == Fault || state == EmergencyStop then this else Goto(Fault)
      else
        match state
        case Standby => Goto(Initialising).(initCounter := 0)
        case Initialising =>
          if !f.valid then this
          else
            var counted := this.(initCounter := initCounter + 1);
            if counted.initCounter >= INIT_CYCLES then counted.Goto(Running) else counted
        case Running => this
        case Fault => this
        case EmergencyStop => this
    }

    function Reset(): Fsm {
      if state == Fault || state == EmergencyStop then Goto(Standby) else this
    }
  }

  const INIT_CYCLES := 5
  const POWER_ON := Fsm(Standby, 0, [])

  predicate Breach(f: Frame) {
    f.valid && (f.temp > 85.0 || f.pressure > 5.0)
  }

  datatype Setpoint = Setpoint(speed: real, coolrate: real)

  function ComputeSetpoint(f: Frame): Setpoint {
    var ratio := f.temp / 80.0;
    var speed := 0.5 * (1.0 - 0.5 * ratio);
    Setpoint(if speed > 0.1 then speed else 0.1, if f.temp > 60.0 then 1.0 else 0.0)
  }

  /**
    The speed falls by a 320th of each degree, from 0.5 extrapolated to zero degrees, down to
    0.1 at 128 degrees; cooling is asked for exactly above 60 degrees.
   */
  lemma SetpointLaw(f: Frame, g: Frame)
    ensures var s, t := ComputeSetpoint(f), ComputeSetpoint(g);
            && (f.temp <= 128.0 && g.temp <= 128.0 ==> s.speed - t.speed == -(f.temp - g.temp) / 320.0)
            && (f.temp >= 128.0 ==> s.speed == 0.1)
            && (f.temp == 0.0 ==> s.speed == 0.5)
            && s.coolrate == (if f.temp > 60.0 then 1.0 else 0.0)
  {
  }

  class HilFsm {
    var state: HilState
    var initCounter: int
    var history: seq<Transition>

    ghost function Value(): Fsm
      reads this
    {
      Fsm(state, initCounter, history)
    }

    constructor ()
      ensures Value() == POWER_ON
    {
      state, initCounter, history := Standby, 0, [];
    }

    method Goto(next: HilState)
      modifies this
      ensures Value() == old(Value()).Goto(next)
    {
      var from := state;
      state := next;
      history := history + [Transition(from, next)];
    }

    method Step(f: Frame) returns (s: HilState)
      modifies this
      ensures Value() == old(Value()).Step(f) && s == state
    {
      if f.valid {
        if f.temp > 85.0 || f.pressure > 5.0 {
          if state != Fault && state != EmergencyStop {
            Goto(Fault);
          }
          return state;
        }
      }
      match state {
        case Standby =>
          Goto(Initialising);
          initCounter := 0;
        case Initialising =>
          if f.valid {
            initCounter := initCounter + 1;
            if initCounter >= INIT_CYCLES {
              Goto(Running);
            }
          }
        case Running =>
        case Fault =>
        case EmergencyStop =>
      }
      s := state;
    }

    method EmergencyHalt()
      modifies this
      ensures Value() == old(Value()).Goto(EmergencyStop)
    {
      Goto(EmergencyStop);
    }

    method Reset()
      modifies this
      ensures Value() == old(Value()).Reset()
    {
      if state == Fault || state == EmergencyStop {
        Goto(Standby);
      }
    }
  }

  /** A sequence of `step` calls. */
  function StepAll(m: Fsm, fs: seq<Frame>): Fsm
    decreases |fs|
  {
    if fs == [] then m else StepAll(m.Step(fs[0]), fs[1..])
  }

  function CountValid(fs: seq<Frame>): nat {
    if fs == [] then 0 else (if fs[0].valid then 1 else 0) + CountValid(fs[1..])
  }

  /** Without an operator the controller is in `Fault` exactly if some frame broke a threshold. */
  lemma {:induction false} FaultIffBreach(m: Fsm, fs: seq<Frame>)
    requires m.state !in {Fault, EmergencyStop}
    ensures StepAll(m, fs).state == Fault
            <==> exists k :: 0 <= k < |fs| && fs[k].valid && (fs[k].temp > 85.0 || fs[k].pressure > 5.0)
    ensures StepAll(m, fs).state != EmergencyStop
    decreases |fs|
  {
    if fs != [] {
      if Breach(fs[0]) {
        StopHolds(m.Step(fs[0]), fs[1..]);
      } else {
        FaultIffBreach(m.Step(fs[0]), fs[1..]);
        assert forall k :: 0 <= k < |fs[1..]| ==> fs[1..][k] == fs[k + 1];
      }
    }
  }

  lemma {:induction false} RunningAfter(m: Fsm, fs: seq<Frame>)
    requires m.state in {Initialising, Running} && m.initCounter < INIT_CYCLES + (if m.state == Running then 1 else 0)
    requires forall k :: 0 <= k < |fs| ==> !Breach(fs[k])
    ensures StepAll(m, fs).state == Running
            <==> m.state == Running || m.initCounter + CountValid(fs) >= INIT_CYCLES
    decreases |fs|
  {
    if fs != [] {
      RunningAfter(m.Step(fs[0]), fs[1..]);
    }
  }

  /**
    From standby, at power-on or after a reset, the controller is running exactly if at least
    five calls after the first saw a valid frame. The calls need not be consecutive.
   */
  lemma RunningIffFiveValid(m: Fsm, fs: seq<Frame>)
    requires m.state == Standby
    requires |fs| > 0 && forall k :: 0 <= k < |fs| ==> !Breach(fs[k])
    ensures StepAll(m, fs).state == Running <==> CountValid(fs[1..]) >= 5
  {
    RunningAfter(m.Step(fs[0]), fs[1..]);
  }

  // What docs/hil.md says instead: five consecutive valid frames.

  /** Five calls in a row, from the `k`-th on, saw a valid frame. */
  predicate FiveFrom(fs: seq<Frame>, k: nat) {
    k + 5 <= |fs| && forall j :: k <= j < k + 5 ==> fs[j].valid
  }

  ghost predicate FiveInARow(fs: seq<Frame>) {
    exists k: nat :: FiveFrom(fs, k)
  }

  /** The `k`-th call saw an invalid frame between the first and the fifth valid one. */
  predicate GapAt(fs: seq<Frame>, k: nat) {
    k < |fs| && !fs[k].valid && 0 < CountValid(fs[..k]) < 5 <= CountValid(fs)
  }

  lemma {:induction false} CountConcat(a: seq<Frame>, b: seq<Frame>)
    ensures CountValid(a + b) == CountValid(a) + CountValid(b)
  {
    if a == [] {
      assert a + b == b;
    } else {
      assert (a + b)[1..] == a[1..] + b;
      CountConcat(a[1..], b);
    }
  }

  /** Cutting a sequence of calls at `k`. */
  lemma CountSplit(fs: seq<Frame>, k: nat)
    requires k <= |fs|
    ensures CountValid(fs) == CountValid(fs[..k]) + CountValid(fs[k..])
  {
    assert fs == fs[..k] + fs[k..];
    CountConcat(fs[..k], fs[k..]);
  }

  lemma CountPrefixes(fs: seq<Frame>, k: nat, n: nat)
    requires k <= n <= |fs|
    ensures CountValid(fs[..k]) <= CountValid(fs[..n])
    ensures k < n ==> CountValid(fs[..k]) + (if fs[k].valid then 1 else 0) == CountValid(fs[..k + 1])
  {
    assert fs[..n][..k] == fs[..k];
    CountSplit(fs[..n], k);
    if k < n {
      assert fs[..k + 1] == fs[..k] + [fs[k]];
      CountConcat(fs[..k], [fs[k]]);
    }
  }

  /** The first call that saw the `n`-th valid frame. */
  lemma {:induction false} NthValid(fs: seq<Frame>, n: nat) returns (k: nat)
    requires 0 < n <= CountValid(fs)
    ensures k < |fs| && fs[k].valid && CountValid(fs[..k]) == n - 1
    ensures CountValid(fs[..k + 1]) == n
  {
    var last := |fs| - 1;
    assert fs[..|fs|] == fs;
    CountPrefixes(fs, last, |fs|);
    if CountValid(fs[..last]) >= n {
      k := NthValid(fs[..last], n);
      assert fs[..last][..k] == fs[..k] && fs[..last][..k + 1] == fs[..k + 1];
    } else {
      k := last;
    }
  }

  lemma {:induction false} CountOfFive(fs: seq<Frame>, k: nat, n: nat)
    requires FiveFrom(fs, k) && n <= INIT_CYCLES
    ensures CountValid(fs[..k + n]) == CountValid(fs[..k]) + n
    decreases n
  {
    if n > 0 {
      CountOfFive(fs, k, n - 1);
      CountPrefixes(fs, k + n - 1, |fs|);
    }
  }

  /** Without a gap the first five valid frames are consecutive. */
  lemma NoGapNoDelay(fs: seq<Frame>)
    requires CountValid(fs) >= INIT_CYCLES && forall k: nat :: !GapAt(fs, k)
    ensures exists k: nat :: FiveFrom(fs, k) && CountValid(fs[..k]) == 0
  {
    var k := NthValid(fs, 1);
    var i := 1;
    assert fs[..|fs|] == fs;
    while i < INIT_CYCLES
      invariant 1 <= i <= INIT_CYCLES && k + i <= |fs|
      invariant CountValid(fs[..k + i]) == i
      invariant forall j :: k <= j < k + i ==> fs[j].valid
    {
      assert !GapAt(fs, k + i);
      CountPrefixes(fs, k + i, |fs|);
      i := i + 1;
    }
    assert FiveFrom(fs, k);
  }

  /** If exactly five frames are valid and they are in a row, an invalid one lies before or behind them. */
  lemma RowHasNoGap(fs: seq<Frame>, w: nat, k: nat)
    requires FiveFrom(fs, w) && CountValid(fs) == INIT_CYCLES && k < |fs| && !fs[k].valid
    ensures CountValid(fs[..k]) in {0, INIT_CYCLES}
  {
    assert fs[..|fs|] == fs;
    CountOfFive(fs, w, INIT_CYCLES);
    CountPrefixes(fs, w + INIT_CYCLES, |fs|);
    CountPrefixes(fs, k, |fs|);
    if k < w {
      CountPrefixes(fs, k, w);
    } else {
      CountPrefixes(fs, w + INIT_CYCLES, k);
    }
  }

  /** With a gap the fifth valid frame does not complete a row of five. */
  lemma GapMeansDelay(fs: seq<Frame>, k: nat) returns (n: nat)
    requires GapAt(fs, k)
    ensures n <= |fs| && CountValid(fs[..n]) >= INIT_CYCLES && !FiveInARow(fs[..n])
  {
    var fifth := NthValid(fs, INIT_CYCLES);
    n := fifth + 1;
    if n <= k {
      CountPrefixes(fs, n, k);
    }
    assert fs[..n][..k] == fs[..k];
    if w: nat :| FiveFrom(fs[..n], w) {
      RowHasNoGap(fs[..n], w, k);
    }
  }

  /** Five frames in a row are five frames. */
  lemma RowIsCounted(fs: seq<Frame>)
    requires FiveInARow(fs)
    ensures CountValid(fs) >= INIT_CYCLES
  {
    var k: nat :| FiveFrom(fs, k);
    CountOfFive(fs, k, INIT_CYCLES);
    CountSplit(fs, k + INIT_CYCLES);
  }

  /** The controller is running after each number of calls exactly if the document says so. */
  ghost predicate FollowsDocument(first: Frame, rest: seq<Frame>) {
    forall n: nat :: n <= |rest| ==>
      (StepAll(POWER_ON, [first] + rest[..n]).state == Running <==> FiveInARow(rest[..n]))
  }

  /**
    Code and document agree at every moment of a run without a breach exactly if no invalid
    frame was seen between the first and the fifth valid one after the first call.
   */
  lemma AgreesIffNoGap(first: Frame, rest: seq<Frame>)
    requires !Breach(first) && forall k :: 0 <= k < |rest| ==> !Breach(rest[k])
    ensures FollowsDocument(first, rest) <==> forall k: nat :: !GapAt(rest, k)
  {
    hide StepAll, CountValid, FiveInARow, GapAt, Breach;
    forall n: nat | n <= |rest|
      ensures StepAll(POWER_ON, [first] + rest[..n]).state == Running <==> CountValid(rest[..n]) >= INIT_CYCLES
    {
      var fs := [first] + rest[..n];
      assert fs[1..] == rest[..n];
      RunningIffFiveValid(POWER_ON, fs);
    }
    if k: nat :| GapAt(rest, k) {
      var n := GapMeansDelay(rest, k);
      assert !FollowsDocument(first, rest);
    } else {
      forall n: nat | n <= |rest|
        ensures CountValid(rest[..n]) >= INIT_CYCLES <==> FiveInARow(rest[..n])
      {
        NoGapPrefix(rest, n);
      }
    }
  }

  lemma NoGapPrefix(fs: seq<Frame>, n: nat)
    requires n <= |fs| && forall k: nat :: !GapAt(fs, k)
    ensures CountValid(fs[..n]) >= INIT_CYCLES <==> FiveInARow(fs[..n])
  {
    hide CountValid;
    if FiveInARow(fs[..n]) {
      RowIsCounted(fs[..n]);
    } else if CountValid(fs[..n]) >= INIT_CYCLES {
      assert fs[..|fs|] == fs;
      CountPrefixes(fs, n, |fs|);
      forall k: nat
        ensures !GapAt(fs[..n], k)
      {
        if k < n {
          assert fs[..n][..k] == fs[..k];
        }
        assert !GapAt(fs, k);
      }
      NoGapNoDelay(fs[..n]);
    }
  }

  /** Every other frame invalid: the controller runs after five valid frames, no two of them consecutive. */
  lemma GapsAreIgnored(v: Frame, w: Frame)
    requires v.valid && !Breach(v) && !w.valid
    ensures var rest := [v, w, v, w, v, w, v, w, v];
            StepAll(POWER_ON, [v] + rest).state == Running && !FiveInARow(rest) && GapAt(rest, 1)
  {
    hide StepAll, CountValid, Breach;
    var rest := [v, w, v, w, v, w, v, w, v];
    var fs := [v] + rest;
    assert fs[1..] == rest;
    Alternating(v, w);
    assert !Breach(w) by { InvalidIsNoBreach(w); }
    RunningIffFiveValid(POWER_ON, fs);
    assert rest[..1] == [v];
  }

  lemma InvalidIsNoBreach(w: Frame)
    requires !w.valid
    ensures !Breach(w)
  {
  }

  lemma Alternating(v: Frame, w: Frame)
    requires v.valid && !w.valid
    ensures var rest := [v, w, v, w, v, w, v, w, v];
            CountValid(rest) == 5 && CountValid([v]) == 1 && !FiveInARow(rest)
  {
    hide CountValid;
    var rest := [v, w, v, w, v, w, v, w, v];
    var two, four := [v, w], [v, w, v, w];
    CountTwo(v, w);
    CountConcat(two, two);
    assert two + two == four;
    CountConcat(four, four);
    CountConcat(four + four, [v]);
    assert four + four + [v] == rest;
    assert !rest[1].valid && !rest[3].valid && !rest[5].valid && !rest[7].valid;
  }

  lemma CountTwo(v: Frame, w: Frame)
    ensures CountValid([v, w]) == (if v.valid then 1 else 0) + (if w.valid then 1 else 0)
    ensures CountValid([v]) == if v.valid then 1 else 0
  {
    assert [v, w] == [v] + [w];
    CountConcat([v], [w]);
  }

  /** An emergency stop holds through any number of steps, and so does a fault; a reset leads back to standby. */
  lemma {:induction false} StopHolds(m: Fsm, fs: seq<Frame>)
    requires m.state in {Fault, EmergencyStop}
    ensures StepAll(m, fs) == m && StepAll(m, fs).Reset().state == Standby
    decreases |fs|
  {
    if fs != [] {
      StopHolds(m.Step(fs[0]), fs[1..]);
    }
  }

  /** The transitions form a path from `s` to `t`. */
  predicate Linked(h: seq<Transition>, s: HilState, t: HilState) {
    if h == [] then s == t else h[|h| - 1].to == t && Linked(h[..|h| - 1], s, h[|h| - 1].from)
  }

  datatype Call = StepCall(f: Frame) | HaltCall | ResetCall

  function CallAll(m: Fsm, calls: seq<Call>): Fsm {
    if calls == [] then m
    else
      var before := CallAll(m, calls[..|calls| - 1]);
      match calls[|calls| - 1]
      case StepCall(f) => before.Step(f)
      case HaltCall => before.Goto(EmergencyStop)
      case ResetCall => before.Reset()
  }

  /** The recorded history of any sequence of calls is a path from power-on to the present state. */
  lemma {:induction false} HistoryIsPath(calls: seq<Call>)
    ensures Linked(CallAll(POWER_ON, calls).history, Standby, CallAll(POWER_ON, calls).state)
  {
    if calls != [] {
      var before := CallAll(POWER_ON, calls[..|calls| - 1]);
      HistoryIsPath(calls[..|calls| - 1]);
      forall next: HilState
        ensures Linked(before.Goto(next).history, Standby, next)
      {
        assert before.Goto(next).history[..|before.history|] == before.history;
      }
    }
  }

  // ---------------------------------------------------------------------------------
  // The simulated machine
  // ---------------------------------------------------------------------------------

  datatype Machine = Machine(pos: real, speed: real, temp: real, coolrate: real, pressure: real)

  const AT_REST := Machine(0.0, 0.0, 20.0, 0.0, 1.0)

  /** A JSON sensor message: each topic carries one of the three values. */
  datatype SensorMsg = SensorMsg(pos: Option<real>, temp: Option<real>, pressure: Option<real>, ts: int)

  /** A JSON command; a missing field reads as zero. */
  datatype Command = Command(speed: Option<real>, coolrate: Option<real>)

  function Or(o: Option<real>, default: real): real {
    if o.Some? then o.value else default
  }

  /** The subscription handler of main_hil.cpp: absent fields get their defaults. */
  function Parse(msg: SensorMsg): Frame {
    Frame(Or(msg.pos, 0.0), Or(msg.temp, 20.0), Or(msg.pressure, 1.0), msg.ts, true)
  }

  function Share(d: real, k: real): real {
    d * k
  }

  /** A step of a first-order lag from `a` toward `b`. */
  function Blend(a: real, b: real, k: real): real {
    a + Share(b - a, k)
  }

  /** `lag` is `1 - exp(-dt / tau)`, `wave` the sine of the clock. */
  function Tick(p: Machine, dt: real, lag: real, wave: real): Machine {
    var target := 75.0 - p.coolrate * 30.0;
    var t := Blend(p.temp, target, lag);
    var low := if t < 120.0 then t else 120.0;
    p.(pos := p.pos + p.speed * dt, temp := if low > 15.0 then low else 15.0, pressure := 1.0 + 0.1 * wave)
  }

  predicate OccursAt(s: string, word: string, i: nat) {
    i + |word| <= |s| && s[i..i + |word|] == word
  }

  /** Python's `word in s`. */
  predicate Contains(s: string, word: string) {
    exists i | 0 <= i <= |s| :: OccursAt(s, word, i)
  }

  function Apply(p: Machine, topic: string, c: Command): Machine {
    if Contains(topic, "conveyor") then p.(speed := Or(c.speed, 0.0), coolrate := Or(c.coolrate, 0.0)) else p
  }

  /** Python's `round` to an integer: to nearest, ties to even. */
  function RoundEven(y: real): int {
    var f := y.Floor;
    var d := y - f as real;
    if d < 0.5 || (d == 0.5 && f % 2 == 0) then f else f + 1
  }

  function RoundTo(x: real, scale: real): real
    requires scale > 0.0
  {
    RoundEven(x * scale) as real / scale
  }

  function SensorFrames(p: Machine, ts: int): seq<SensorMsg> {
    [SensorMsg(Some(RoundTo(p.pos, 10000.0)), None, None, ts),
     SensorMsg(None, Some(RoundTo(p.temp, 100.0)), None, ts),
     SensorMsg(None, None, Some(RoundTo(p.pressure, 1000.0)), ts)]
  }

  class PhysicsModel {
    var pos: real
    var speed: real
    var temp: real
    var coolrate: real
    var pressure: real

    ghost function Value(): Machine
      reads this
    {
      Machine(pos, speed, temp, coolrate, pressure)
    }

    constructor ()
      ensures Value() == AT_REST
    {
      pos, speed, temp, coolrate, pressure := 0.0, 0.0, 20.0, 0.0, 1.0;
    }

    /** `step`, with the values of the two transcendental functions. */
    method Step(dt: real, lag: real, wave: real)
      modifies this
      ensures Value() == Tick(old(Value()), dt, lag, wave)
    {
      hide Blend;
      pos := pos + speed * dt;
      var target := 75.0 - coolrate * 30.0;
      temp := Blend(temp, target, lag);
      temp := if temp < 120.0 then temp else 120.0;
      temp := if temp > 15.0 then temp else 15.0;
      pressure := 1.0 + 0.1 * wave;
    }

    method ApplyCommand(topic: string, c: Command)
      modifies this
      ensures Value() == Apply(old(Value()), topic, c)
    {
      if Contains(topic, "conveyor") {
        speed := Or(c.speed, 0.0);
        coolrate := Or(c.coolrate, 0.0);
      }
    }
  }

  /** Rounding moves a value by at most half a unit, and a tie to an even multiple. */
  lemma RoundNearest(x: real, scale: real)
    requires scale > 0.0
    ensures -0.5 <= RoundTo(x, scale) * scale - x * scale <= 0.5
    ensures RoundTo(x, scale) * scale - x * scale in {-0.5, 0.5} ==> RoundEven(x * scale) % 2 == 0
  {
    var r := RoundEven(x * scale) as real;
    assert r / scale * scale == r;
  }

  /** Each message of a tick carries one rounded reading; the handler fills in the defaults for the others. */
  lemma MessagesCarryReadings(p: Machine, ts: int)
    ensures var pos, temp, pressure := RoundTo(p.pos, 10000.0), RoundTo(p.temp, 100.0), RoundTo(p.pressure, 1000.0);
            var m := SensorFrames(p, ts);
            && |m| == 3
            && Parse(m[0]) == Frame(pos, 20.0, 1.0, ts, true)
            && Parse(m[1]) == Frame(0.0, temp, 1.0, ts, true)
            && Parse(m[2]) == Frame(0.0, 20.0, pressure, ts, true)
  {
  }

  lemma Monotone(a: real, b: real, k: real)
    requires k >= 0.0 && a <= b
    ensures a * k <= b * k
    ensures k > 0.0 ==> a / k <= b / k
  {
  }

  /** Rounding to a multiple of `1 / scale` respects bounds that are such multiples. */
  lemma RoundToBounds(x: real, scale: real, lo: int, hi: int)
    requires scale > 0.0 && lo as real <= x * scale <= hi as real
    ensures lo as real / scale <= RoundTo(x, scale) <= hi as real / scale
  {
    var r := RoundEven(x * scale);
    assert lo <= r <= hi;
    Monotone(lo as real, r as real, scale);
    Monotone(r as real, hi as real, scale);
  }

  /** A step mixes the old temperature with a target of 75 or 45 degrees. */
  lemma TickTemperature(p: Machine, dt: real, lag: real, wave: real)
    requires 20.0 <= p.temp <= 75.0 && p.coolrate in {0.0, 1.0} && 0.0 <= lag <= 1.0
    ensures 20.0 <= Tick(p, dt, lag, wave).temp <= 75.0
  {
    hide Blend;
    BlendBetween(p.temp, 75.0 - p.coolrate * 30.0, lag);
  }

  /**
    The distance to the temperature that the machine tends to, 75 degrees and 45 with cooling,
    shrinks by the factor 1 - lag in each step.
   */
  lemma Approach(p: Machine, dt: real, lag: real, wave: real)
    requires 20.0 <= p.temp <= 75.0 && p.coolrate in {0.0, 1.0} && 0.0 <= lag <= 1.0
    ensures var rest := if p.coolrate == 0.0 then 75.0 else 45.0;
            rest - Tick(p, dt, lag, wave).temp == (1.0 - lag) * (rest - p.temp)
  {
    hide Blend;
    var target := 75.0 - p.coolrate * 30.0;
    BlendBetween(p.temp, target, lag);
    BlendDistance(p.temp, target, lag);
  }

  lemma BlendDistance(a: real, b: real, k: real)
    ensures b - Blend(a, b, k) == (1.0 - k) * (b - a)
  {
  }

  /** A cooled spindle above 45 degrees does not warm, an uncooled one below 75 does not cool. */
  lemma CoolingCools(p: Machine, dt: real, lag: real, wave: real)
    requires 20.0 <= p.temp <= 75.0 && 0.0 <= lag <= 1.0
    ensures p.coolrate == 1.0 && p.temp >= 45.0 ==> 45.0 <= Tick(p, dt, lag, wave).temp <= p.temp
    ensures p.coolrate == 1.0 && p.temp > 45.0 && lag > 0.0 ==> Tick(p, dt, lag, wave).temp < p.temp
    ensures p.coolrate == 0.0 ==> p.temp <= Tick(p, dt, lag, wave).temp
  {
    if p.coolrate in {0.0, 1.0} {
      hide Tick;
      var rest := if p.coolrate == 0.0 then 75.0 else 45.0;
      Approach(p, dt, lag, wave);
      assert (1.0 - lag) * (rest - p.temp) == rest - p.temp - lag * (rest - p.temp);
      ProductSign(rest - p.temp, lag);
      ProductSign(rest - p.temp, 1.0 - lag);
      if lag > 0.0 && p.temp > rest {
        StrictProduct(p.temp - rest, lag);
      }
    }
  }

  lemma StrictProduct(a: real, b: real)
    requires a > 0.0 && b > 0.0
    ensures a * b > 0.0
  {
  }

  /** Whatever the state, the spindle reading stays in [15, 120], the pressure swings with the clock, and the rest stays. */
  lemma TickFrame(p: Machine, dt: real, lag: real, wave: real)
    ensures var t := Tick(p, dt, lag, wave);
            && 15.0 <= t.temp <= 120.0 && t.pressure == 1.0 + wave / 10.0
            && t.pos - p.pos == p.speed * dt && t.speed == p.speed && t.coolrate == p.coolrate
  {
    hide Blend;
  }

  /** Below 15 and above 120 degrees the spindle is held there; in between nothing is cut off. */
  lemma TickLimits(p: Machine, dt: real, lag: real, wave: real)
    ensures var free := Blend(p.temp, 75.0 - p.coolrate * 30.0, lag);
            var temp := Tick(p, dt, lag, wave).temp;
            && (15.0 <= free <= 120.0 ==> temp == free)
            && (free <= 15.0 ==> temp == 15.0)
            && (free >= 120.0 ==> temp == 120.0)
  {
    hide Blend;
  }

  /** A conveyor command sets both values; a missing field counts as zero. */
  lemma ConveyorCommand(p: Machine, speed: real, coolrate: real)
    ensures var topic := "command/actuator/conveyor";
            && Apply(p, topic, Command(Some(speed), Some(coolrate))) == p.(speed := speed, coolrate := coolrate)
            && Apply(p, topic, Command(Some(speed), None)) == p.(speed := speed, coolrate := 0.0)
            && Apply(p, topic, Command(None, Some(coolrate))) == p.(speed := 0.0, coolrate := coolrate)
  {
    assert OccursAt("command/actuator/conveyor", "conveyor", 17);
  }

  /** Commands for other topics leave the machine alone. */
  lemma OtherTopics(p: Machine, c: Command)
    ensures Apply(p, "command/actuator/spindle", c) == p
  {
    var topic := "command/actuator/spindle";
    forall i | 0 <= i <= |topic|
      ensures !OccursAt(topic, "conveyor", i)
    {
      if i + 8 <= |topic| {
        assert topic[i..i + 8][0] == topic[i] && topic[i..i + 8][3] == topic[i + 3];
      }
    }
  }

  lemma BlendBetween(a: real, b: real, k: real)
    requires 0.0 <= k <= 1.0
    ensures a <= b ==> a <= Blend(a, b, k) <= b
    ensures b <= a ==> b <= Blend(a, b, k) <= a
  {
    hide Share;
    Portion(b - a, k);
  }

  lemma Portion(d: real, k: real)
    requires 0.0 <= k <= 1.0
    ensures d >= 0.0 ==> 0.0 <= Share(d, k) <= d
    ensures d <= 0.0 ==> d <= Share(d, k) <= 0.0
  {
    ProductSign(d, k);
    ProductSign(d, 1.0 - k);
    assert d * (1.0 - k) == d - d * k;
  }

  lemma ProductSign(d: real, m: real)
    requires m >= 0.0
    ensures d >= 0.0 ==> d * m >= 0.0
    ensures d <= 0.0 ==> d * m <= 0.0
  {
  }
}
