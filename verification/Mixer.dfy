/**
  The batch mixer (batch_mixer_scada/src): what one controller call does, as functions on
  the values of the controller and its components, and what every run of calls keeps.
 */
module Mixer {

  datatype BatchState = Idle | SiloDrain | ScaleFill | Mixing | Discharge | EmergencyStop

  datatype Recipe = Recipe(
    id: int, name: string, materialA: real, materialB: real,
    mixDuration: int, targetRpm: int, maxPressure: real
  )

  datatype Scale = Scale(flowRate: real, mass: real, filling: bool) {
    function Setpoint(v: real): Scale {
      this.(filling := v >= 0.5)
    }

    /** `noise` is the draw from the scale's noise distribution. */
    function Update(dt: real, noise: real): Scale {
      if filling then this.(mass := mass + (flowRate * dt + noise)) else this
    }

    function Reset(): Scale {
      this.(mass := 0.0, filling := false)
    }
  }

  datatype Drum = Drum(targetRpm: real, rpm: real, temp: real, ambient: real, kHeat: real, kCool: real) {
    function Setpoint(v: real): Drum {
      this.(targetRpm := v)
    }

    function Update(dt: real): Drum {
      var dT := kHeat * targetRpm - kCool * (temp - ambient);
      this.(rpm := targetRpm, temp := temp + dT * dt)
    }

    function Stop(): Drum {
      this.(targetRpm := 0.0, rpm := 0.0)
    }
  }

  /** The controller with its components; a valve is open or closed. */
  datatype Plant = Plant(
    state: BatchState, recipe: Recipe, elapsed: real,
    siloA: bool, siloB: bool, discharge: bool,
    scaleA: Scale, scaleB: Scale, drum: Drum
  )

  const MASS_TOLERANCE := 0.5

  // ---------------------------------------------------------------------------------
  // The calls
  // ---------------------------------------------------------------------------------

  /** `start`; `healthy` is the conjunction of the self tests. */
  function Start(m: Plant, healthy: bool): Plant {
    if m.state != Idle || !healthy then m
    else
      m.(scaleA := m.scaleA.Reset().Setpoint(1.0), scaleB := m.scaleB.Reset(), elapsed := 0.0,
         state := SiloDrain, siloA := true)
  }

  function EmergencyHalt(m: Plant): Plant {
    m.(siloA := false, siloB := false, discharge := false, drum := m.drum.Stop(), state := EmergencyStop)
  }

  function DrainStep(m: Plant, dt: real, noise: real): Plant {
    var a := m.scaleA.Update(dt, noise);
    if a.mass >= m.recipe.materialA - MASS_TOLERANCE then
      m.(siloA := false, scaleA := a.Setpoint(0.0), siloB := true, scaleB := m.scaleB.Setpoint(1.0),
         state := ScaleFill)
    else
      m.(scaleA := a)
  }

  function FillStep(m: Plant, dt: real, noise: real): Plant {
    var b := m.scaleB.Update(dt, noise);
    if b.mass >= m.recipe.materialB - MASS_TOLERANCE then
      m.(siloB := false, scaleB := b.Setpoint(0.0), drum := m.drum.Setpoint(m.recipe.targetRpm as real),
         state := Mixing)
    else
      m.(scaleB := b)
  }

  function MixStep(m: Plant, dt: real): Plant {
    var d := m.drum.Update(dt);
    var e := m.elapsed + dt;
    if e >= m.recipe.mixDuration as real then
      m.(drum := d.Stop(), elapsed := e, discharge := true, state := Discharge)
    else
      m.(drum := d, elapsed := e)
  }

  /** `step`, given what the pressure guard answers and the noise drawn by the active scale. */
  function Step(m: Plant, dt: real, noise: real, tripped: bool): Plant {
    if tripped && m.state != EmergencyStop then EmergencyHalt(m)
    else
      match m.state
      case SiloDrain => DrainStep(m, dt, noise)
      case ScaleFill => FillStep(m, dt, noise)
      case Mixing => MixStep(m, dt)
      case Discharge => m.(discharge := false, state := Idle)
      case Idle => m
      case EmergencyStop => m
  }

  // ---------------------------------------------------------------------------------
  // Interlocks and dosing
  // ---------------------------------------------------------------------------------

  /** The state determines which valve is open, at most one, and the drum's speed. */
  predicate Interlocked(m: Plant) {
    && (m.siloA <==> m.state == SiloDrain)
    && (m.siloB <==> m.state == ScaleFill)
    && (m.discharge <==> m.state == Discharge)
    && m.drum.targetRpm == (if m.state == Mixing then m.recipe.targetRpm as real else 0.0)
    && m.drum.rpm in {0.0, m.drum.targetRpm}
    && (m.state == Mixing && m.elapsed > 0.0 ==> m.drum.rpm == m.drum.targetRpm)
  }

  /** All valves closed and the drum at rest. */
  predicate Safe(m: Plant) {
    !m.siloA && !m.siloB && !m.discharge && m.drum.rpm == 0.0 && m.drum.targetRpm == 0.0
  }

  /** In a running batch the scales fill exactly while their silo is open. */
  predicate Filling(m: Plant) {
    Running(m) ==> (m.scaleA.filling <==> m.state == SiloDrain) && (m.scaleB.filling <==> m.state == ScaleFill)
  }

  function Max(a: real, b: real): real {
    if a > b then a else b
  }

  /** A finished dose misses the target by at most the tolerance below and one gain above. */
  predicate Dosed(mass: real, target: real, gain: real) {
    target - MASS_TOLERANCE <= mass <= Max(0.0, target - MASS_TOLERANCE) + gain
  }

  /** A dose in progress is still short of the target, or has not begun. */
  predicate Dosing(mass: real, target: real) {
    mass == 0.0 || mass < target - MASS_TOLERANCE
  }

  /** `gainA` and `gainB` bound what one step adds to a scale, `dtMax` the length of a step. */
  predicate DoseInv(m: Plant, gainA: real, gainB: real, dtMax: real) {
    match m.state
    case SiloDrain => Dosing(m.scaleA.mass, m.recipe.materialA) && m.scaleB.mass == 0.0 && m.elapsed == 0.0
    case ScaleFill =>
      && Dosed(m.scaleA.mass, m.recipe.materialA, gainA)
      && Dosing(m.scaleB.mass, m.recipe.materialB) && m.elapsed == 0.0
    case Mixing =>
      && Dosed(m.scaleA.mass, m.recipe.materialA, gainA) && Dosed(m.scaleB.mass, m.recipe.materialB, gainB)
      && (m.elapsed == 0.0 || 0.0 < m.elapsed < m.recipe.mixDuration as real)
    case Discharge =>
      && Dosed(m.scaleA.mass, m.recipe.materialA, gainA) && Dosed(m.scaleB.mass, m.recipe.materialB, gainB)
      && m.recipe.mixDuration as real <= m.elapsed <= Max(0.0, m.recipe.mixDuration as real) + dtMax
    case Idle => true
    case EmergencyStop => true
  }

  predicate PlantInv(m: Plant, gainA: real, gainB: real, dtMax: real) {
    Interlocked(m) && Filling(m) && DoseInv(m, gainA, gainB, dtMax)
  }

  lemma StartKeepsInv(m: Plant, healthy: bool, gainA: real, gainB: real, dtMax: real)
    requires PlantInv(m, gainA, gainB, dtMax)
    ensures PlantInv(Start(m, healthy), gainA, gainB, dtMax)
  {
  }

  /** The gain of the active scale and the length of the step are within the bounds. */
  predicate StepWithin(m: Plant, dt: real, noise: real, gainA: real, gainB: real, dtMax: real) {
    && 0.0 <= dt <= dtMax
    && m.scaleA.flowRate * dt + noise <= gainA
    && m.scaleB.flowRate * dt + noise <= gainB
  }

  /** The addition that ends a dose leaves it within one gain of where it could have been before. */
  lemma DoseEnds(mass: real, added: real, target: real, gain: real)
    requires Dosing(mass, target) && added <= gain && mass + added >= target - MASS_TOLERANCE
    ensures Dosed(mass + added, target, gain)
  {
  }

  lemma DrainKeepsInv(m: Plant, dt: real, noise: real, gainA: real, gainB: real, dtMax: real)
    requires PlantInv(m, gainA, gainB, dtMax) && m.state == SiloDrain
    requires m.scaleA.flowRate * dt + noise <= gainA
    ensures PlantInv(DrainStep(m, dt, noise), gainA, gainB, dtMax)
  {
    hide Dosed;
    var added := m.scaleA.flowRate * dt + noise;
    assert m.scaleA.Update(dt, noise) == m.scaleA.(mass := m.scaleA.mass + added);
    if m.scaleA.mass + added >= m.recipe.materialA - MASS_TOLERANCE {
      DoseEnds(m.scaleA.mass, added, m.recipe.materialA, gainA);
    }
  }

  lemma FillKeepsInv(m: Plant, dt: real, noise: real, gainA: real, gainB: real, dtMax: real)
    requires PlantInv(m, gainA, gainB, dtMax) && m.state == ScaleFill
    requires m.scaleB.flowRate * dt + noise <= gainB
    ensures PlantInv(FillStep(m, dt, noise), gainA, gainB, dtMax)
  {
    hide Dosed;
    var added := m.scaleB.flowRate * dt + noise;
    assert m.scaleB.Update(dt, noise) == m.scaleB.(mass := m.scaleB.mass + added);
    if m.scaleB.mass + added >= m.recipe.materialB - MASS_TOLERANCE {
      DoseEnds(m.scaleB.mass, added, m.recipe.materialB, gainB);
    }
  }

  lemma MixKeepsInv(m: Plant, dt: real, gainA: real, gainB: real, dtMax: real)
    requires PlantInv(m, gainA, gainB, dtMax) && m.state == Mixing && 0.0 <= dt <= dtMax
    ensures PlantInv(MixStep(m, dt), gainA, gainB, dtMax)
  {
    hide Dosed;
    var t := MixStep(m, dt);
    assert t.scaleA == m.scaleA && t.scaleB == m.scaleB && t.recipe == m.recipe && t.elapsed == m.elapsed + dt;
    assert Interlocked(t);
  }

  lemma HaltKeepsInv(m: Plant, gainA: real, gainB: real, dtMax: real)
    ensures PlantInv(EmergencyHalt(m), gainA, gainB, dtMax)
  {
  }

  lemma StepKeepsInv(m: Plant, dt: real, noise: real, tripped: bool, gainA: real, gainB: real, dtMax: real)
    requires PlantInv(m, gainA, gainB, dtMax) && StepWithin(m, dt, noise, gainA, gainB, dtMax)
    ensures PlantInv(Step(m, dt, noise, tripped), gainA, gainB, dtMax)
  {
    hide PlantInv, DrainStep, FillStep, MixStep, EmergencyHalt;
    if tripped && m.state != EmergencyStop {
      HaltKeepsInv(m, gainA, gainB, dtMax);
    } else {
      match m.state
      case SiloDrain => DrainKeepsInv(m, dt, noise, gainA, gainB, dtMax);
      case ScaleFill => FillKeepsInv(m, dt, noise, gainA, gainB, dtMax);
      case Mixing => MixKeepsInv(m, dt, gainA, gainB, dtMax);
      case Discharge => DischargeKeepsInv(m, gainA, gainB, dtMax);
      case Idle =>
      case EmergencyStop =>
    }
  }

  lemma DischargeKeepsInv(m: Plant, gainA: real, gainB: real, dtMax: real)
    requires PlantInv(m, gainA, gainB, dtMax) && m.state == Discharge
    ensures PlantInv(m.(discharge := false, state := Idle), gainA, gainB, dtMax)
  {
  }

  /** What a step does not do: only the active scale gains, only mixing takes time and moves the drum's temperature. */
  lemma StepFrame(m: Plant, dt: real, noise: real, tripped: bool)
    ensures var t := Step(m, dt, noise, tripped);
            var active := if tripped then Idle else m.state;
            && t.recipe == m.recipe
            && t.scaleA.mass - m.scaleA.mass
               == (if active == SiloDrain && m.scaleA.filling then m.scaleA.flowRate * dt + noise else 0.0)
            && t.scaleB.mass - m.scaleB.mass
               == (if active == ScaleFill && m.scaleB.filling then m.scaleB.flowRate * dt + noise else 0.0)
            && t.elapsed - m.elapsed == (if active == Mixing then dt else 0.0)
            && (active != Mixing ==> t.drum.temp == m.drum.temp)
            && (active == Mixing ==> t.drum.temp == m.drum.Update(dt).temp)
            && t.drum.ambient == m.drum.ambient && t.drum.kHeat == m.drum.kHeat && t.drum.kCool == m.drum.kCool
  {
  }

  /** A start is refused outside `Idle` or after a failed self test, and then changes nothing; it spares the drum and the recipe. */
  lemma StartRefused(m: Plant, healthy: bool)
    ensures m.state != Idle || !healthy ==> Start(m, healthy) == m
    ensures Start(m, healthy).recipe == m.recipe && Start(m, healthy).drum == m.drum
    ensures Start(m, healthy).siloB == m.siloB && Start(m, healthy).discharge == m.discharge
  {
  }

  /** Mixing ends in the step that reaches the recipe's time, so it is exceeded by less than that step. */
  lemma MixingTime(m: Plant, dt: real, noise: real, gainA: real, gainB: real, dtMax: real)
    requires PlantInv(m, gainA, gainB, dtMax) && m.state == Mixing && dt > 0.0
    ensures var t := Step(m, dt, noise, false);
            var over := t.elapsed - m.recipe.mixDuration as real;
            && (t.state == Discharge <==> over >= 0.0)
            && (t.state == Discharge ==> (over < dt <==> m.recipe.mixDuration > 0))
  {
  }

  /**
    The drum never leaves the band between ambient and the temperature `hot` at which the
    fastest speed is in equilibrium, for steps short enough for the explicit integration.
   */
  lemma DrumTemperature(d: Drum, dt: real, fastest: real, hot: real)
    requires 0.0 <= d.targetRpm <= fastest && 0.0 <= d.kHeat && 0.0 <= dt && 0.0 <= d.kCool * dt <= 1.0
    requires d.kCool * (hot - d.ambient) == d.kHeat * fastest
    requires d.ambient <= d.temp <= hot
    ensures d.ambient <= d.Update(dt).temp <= hot
  {
    var x, y, k := d.temp - d.ambient, hot - d.temp, d.kCool * dt;
    var slow := d.kHeat * (fastest - d.targetRpm) * dt;
    assert d.Update(dt).temp - d.ambient == (1.0 - k) * x + d.kHeat * d.targetRpm * dt;
    assert hot - d.Update(dt).temp == (1.0 - k) * y + slow;
    assert (1.0 - k) * x >= 0.0 && (1.0 - k) * y >= 0.0;
    assert d.kHeat * d.targetRpm >= 0.0 && d.kHeat * (fastest - d.targetRpm) >= 0.0;
  }

  /** Each step takes over the set speed, and shrinks the distance to the equilibrium of that speed by a fixed factor. */
  lemma DrumApproach(d: Drum, dt: real, hot: real)
    requires d.kCool * (hot - d.ambient) == d.kHeat * d.targetRpm
    ensures d.Update(dt).rpm == d.targetRpm
    ensures hot - d.Update(dt).temp == (1.0 - d.kCool * dt) * (hot - d.temp)
  {
    var change := d.kHeat * d.targetRpm - d.kCool * (d.temp - d.ambient);
    assert change == d.kCool * (hot - d.ambient) - d.kCool * (d.temp - d.ambient) == d.kCool * (hot - d.temp);
    assert change * dt == d.kCool * dt * (hot - d.temp);
  }

  // ---------------------------------------------------------------------------------
  // Bounded completion
  // ---------------------------------------------------------------------------------

  datatype Input = Input(dt: real, noise: real)

  /** A run of `step` calls without a trip. */
  function Steps(m: Plant, inputs: seq<Input>): Plant
    decreases |inputs|
  {
    if inputs == [] then m else Steps(Step(m, inputs[0].dt, inputs[0].noise, false), inputs[1..])
  }

  function Ceil(x: real): int {
    -((-x).Floor)
  }

  /** The number of steps of size at least `g` that surely cover `x`, but at least one. */
  function StepsFor(x: real, g: real): (k: nat)
    requires g > 0.0
    ensures k >= 1
  {
    var k := Ceil(x / g);
    if k < 1 then 1 else k
  }

  /** An upper bound on the steps left until the batch is done. */
  function Rank(m: Plant, d: real, g: real): nat
    requires d > 0.0 && g > 0.0
  {
    var fillB := StepsFor(m.recipe.materialB - MASS_TOLERANCE - m.scaleB.mass, g);
    var mix := StepsFor(m.recipe.mixDuration as real - m.elapsed, d);
    match m.state
    case SiloDrain => StepsFor(m.recipe.materialA - MASS_TOLERANCE - m.scaleA.mass, g) + fillB + mix + 1
    case ScaleFill => fillB + mix + 1
    case Mixing => mix + 1
    case Discharge => 1
    case Idle => 0
    case EmergencyStop => 0
  }

  lemma StepsForDecreases(x: real, y: real, g: real)
    requires g > 0.0 && y <= x - g && y > 0.0
    ensures StepsFor(y, g) + 1 <= StepsFor(x, g)
  {
    DivShift(x, y, g);
  }

  lemma DivShift(x: real, y: real, g: real)
    requires g > 0.0 && 0.0 < y <= x - g
    ensures 0.0 < y / g <= x / g - 1.0
  {
    var p, q := x / g, y / g;
    assert p * g == x && q * g == y;
    assert (p - 1.0) * g == x - g;
    Cancel(q, p - 1.0, g);
    Cancel(-q, 0.0, g);
    assert q != 0.0;
  }

  lemma Cancel(a: real, b: real, g: real)
    requires g > 0.0 && a * g <= b * g
    ensures a <= b
  {
  }

  predicate Running(m: Plant) {
    m.state !in {Idle, EmergencyStop}
  }

  /** Steps of length at least `d` that add at least `g` to the active scale. */
  predicate Progress(m: Plant, i: Input, d: real, g: real) {
    i.dt >= d && m.scaleA.flowRate * i.dt + i.noise >= g && m.scaleB.flowRate * i.dt + i.noise >= g
  }

  lemma RankDecreases(m: Plant, i: Input, d: real, g: real)
    requires d > 0.0 && g > 0.0 && Running(m) && Filling(m) && Progress(m, i, d, g)
    ensures var t := Step(m, i.dt, i.noise, false);
            Rank(t, d, g) < Rank(m, d, g) && t.state != EmergencyStop && Filling(t)
  {
    hide StepsFor;
    var t := Step(m, i.dt, i.noise, false);
    match m.state
    case SiloDrain =>
      if t.state == SiloDrain {
        StepsForDecreases(m.recipe.materialA - MASS_TOLERANCE - m.scaleA.mass,
                          m.recipe.materialA - MASS_TOLERANCE - t.scaleA.mass, g);
      }
    case ScaleFill =>
      if t.state == ScaleFill {
        StepsForDecreases(m.recipe.materialB - MASS_TOLERANCE - m.scaleB.mass,
                          m.recipe.materialB - MASS_TOLERANCE - t.scaleB.mass, g);
      }
    case Mixing =>
      if t.state == Mixing {
        StepsForDecreases(m.recipe.mixDuration as real - m.elapsed, m.recipe.mixDuration as real - t.elapsed, d);
      }
    case Discharge =>
  }

  lemma {:induction false} DoneWithinRank(m: Plant, inputs: seq<Input>, d: real, g: real)
    requires d > 0.0 && g > 0.0 && m.state != EmergencyStop && Filling(m)
    requires forall k :: 0 <= k < |inputs| ==> Progress(m, inputs[k], d, g)
    requires |inputs| >= Rank(m, d, g)
    ensures Steps(m, inputs).state == Idle
    decreases |inputs|
  {
    hide Rank;
    if inputs != [] {
      var t := Step(m, inputs[0].dt, inputs[0].noise, false);
      if m.state != Idle {
        RankDecreases(m, inputs[0], d, g);
      }
      assert Rank(t, d, g) <= |inputs[1..]| by { RankOfIdle(m, d, g); }
      DoneWithinRank(t, inputs[1..], d, g);
    } else {
      RankOfIdle(m, d, g);
    }
  }

  lemma RankOfIdle(m: Plant, d: real, g: real)
    requires d > 0.0 && g > 0.0
    ensures Rank(m, d, g) == 0 <==> m.state in {Idle, EmergencyStop}
  {
  }

  /**
    Without a trip a started batch is back in `Idle` after a number of steps computed from the
    recipe, however the noise falls, as long as steps and gains have a positive lower bound.
   */
  lemma BatchCompletes(m: Plant, inputs: seq<Input>, d: real, g: real)
    requires d > 0.0 && g > 0.0 && m.state == Idle
    requires forall k :: 0 <= k < |inputs| ==> Progress(m, inputs[k], d, g)
    requires |inputs| >= StepsFor(m.recipe.materialA - 0.5, g) + StepsFor(m.recipe.materialB - 0.5, g)
                       + StepsFor(m.recipe.mixDuration as real, d) + 1
    ensures Start(m, true).state == SiloDrain && Steps(Start(m, true), inputs).state == Idle
  {
    DoneWithinRank(Start(m, true), inputs, d, g);
  }
}
