/**
  The controller and its components as objects (batch_mixer_scada/src): each method is the
  C++ method, proved against the functions of `Mixer` on the values of all components.
 */
module BatchController {
  import opened Mixer

  class Valve {
    var open: bool
    const leak: bool

    constructor (injectLeak: bool)
      ensures !open && leak == injectLeak
    {
      open, leak := false, injectLeak;
    }

    method Setpoint(v: real)
      modifies this
      ensures open == (v >= 0.5)
    {
      open := v >= 0.5;
    }

    method SelfTest() returns (ok: bool)
      ensures ok == !leak
    {
      ok := !leak;
    }
  }

  class WeighingScale {
    const flowRate: real
    var mass: real
    var filling: bool

    ghost function Value(): Scale
      reads this
    {
      Scale(flowRate, mass, filling)
    }

    constructor (flow: real)
      ensures Value() == Scale(flow, 0.0, false)
    {
      flowRate, mass, filling := flow, 0.0, false;
    }

    method Setpoint(v: real)
      modifies this
      ensures Value() == old(Value()).Setpoint(v)
    {
      filling := v >= 0.5;
    }

    method Update(dt: real, noise: real)
      modifies this
      ensures Value() == old(Value()).Update(dt, noise)
    {
      if filling {
        mass := mass + (flowRate * dt + noise);
      }
    }

    method Reset()
      modifies this
      ensures Value() == old(Value()).Reset()
    {
      mass, filling := 0.0, false;
    }
  }

  class MixerDrum {
    var targetRpm: real
    var rpm: real
    var temp: real
    const ambient: real
    const kHeat: real
    const kCool: real

    ghost function Value(): Drum
      reads this
    {
      Drum(targetRpm, rpm, temp, ambient, kHeat, kCool)
    }

    constructor (heat: real, cool: real, tAmbient: real)
      ensures Value() == Drum(0.0, 0.0, tAmbient, tAmbient, heat, cool)
    {
      targetRpm, rpm, temp, ambient, kHeat, kCool := 0.0, 0.0, tAmbient, tAmbient, heat, cool;
    }

    method Setpoint(v: real)
      modifies this
      ensures Value() == old(Value()).Setpoint(v)
    {
      targetRpm := v;
    }

    method Update(dt: real)
      modifies this
      ensures Value() == old(Value()).Update(dt)
    {
      rpm := targetRpm;
      var dT := kHeat * rpm - kCool * (temp - ambient);
      temp := temp + dT * dt;
    }

    method Stop()
      modifies this
      ensures Value() == old(Value()).Stop()
    {
      targetRpm, rpm := 0.0, 0.0;
    }
  }

  /** The latch; a sensor reading is a parameter of the call that takes it. */
  class PressureGuard {
    const threshold: real
    var tripped: bool

    constructor (thresholdBar: real)
      ensures threshold == thresholdBar && !tripped
    {
      threshold, tripped := thresholdBar, false;
    }

    method Acknowledge(p: real) returns (ok: bool)
      modifies this
      ensures ok == (p < threshold)
      ensures tripped == (old(tripped) && !ok)
    {
      if p >= threshold { return false; }
      tripped := false;
      ok := true;
    }
  }

  class Controller {
    const siloA: Valve
    const siloB: Valve
    const discharge: Valve
    const scaleA: WeighingScale
    const scaleB: WeighingScale
    const drum: MixerDrum
    const guard: PressureGuard
    var recipe: Recipe
    var state: BatchState
    var elapsed: real

    ghost function Repr(): set<object> {
      {siloA, siloB, discharge, scaleA, scaleB, drum, guard}
    }

    /** The components are different objects. */
    ghost predicate Valid() {
      siloA != siloB && siloA != discharge && siloB != discharge && scaleA != scaleB
    }

    /** The values of the controller and all its components. */
    ghost function Value(): Plant
      reads this, Repr()
    {
      Plant(state, recipe, elapsed, siloA.open, siloB.open, discharge.open,
            scaleA.Value(), scaleB.Value(), drum.Value())
    }

    /** The guard copies the threshold of the default recipe, once. */
    constructor (a: Valve, b: Valve, d: Valve, wa: WeighingScale, wb: WeighingScale, mixer: MixerDrum)
      requires a != b && a != d && b != d && wa != wb
      ensures Valid() && fresh(guard) && state == Idle && !guard.tripped && guard.threshold == 6.0
      ensures siloA == a && siloB == b && discharge == d && scaleA == wa && scaleB == wb && drum == mixer
    {
      siloA, siloB, discharge, scaleA, scaleB, drum := a, b, d, wa, wb, mixer;
      recipe := Recipe(0, "", 0.0, 0.0, 0, 0, 6.0);
      guard := new PressureGuard(6.0);
      state, elapsed := Idle, 0.0;
    }

    /** `loadRecipe`; `false` is the thrown `logic_error`. */
    method LoadRecipe(r: Recipe) returns (ok: bool)
      modifies this`recipe
      ensures ok == (state == Idle)
      ensures recipe == if ok then r else old(recipe)
    {
      if state != Idle { return false; }
      recipe := r;
      ok := true;
    }

    method Start() returns (ok: bool)
      requires Valid()
      modifies this`state, this`elapsed, siloA, scaleA, scaleB
      ensures ok == (old(state) == Idle && !siloA.leak && !siloB.leak && !discharge.leak)
      ensures Value() == Mixer.Start(old(Value()), !siloA.leak && !siloB.leak && !discharge.leak)
      ensures !ok ==> Value() == old(Value())
    {
      if state != Idle { return false; }
      var a := siloA.SelfTest();
      var b := siloB.SelfTest();
      var d := discharge.SelfTest();
      if !a || !b || !d { return false; }
      scaleA.Reset();
      scaleB.Reset();
      elapsed := 0.0;
      state := SiloDrain;
      siloA.Setpoint(1.0);
      scaleA.Setpoint(1.0);
      ok := true;
    }

    /** `step`; `noise` is what the scale that is updated draws. */
    method Step(dt: real, noise: real) returns (s: BatchState)
      requires Valid()
      modifies this`state, this`elapsed, siloA, siloB, discharge, scaleA, scaleB, drum
      ensures Value() == Mixer.Step(old(Value()), dt, noise, guard.tripped)
      ensures s == state
    {
      if guard.tripped && state != EmergencyStop {
        siloA.Setpoint(0.0);
        siloB.Setpoint(0.0);
        discharge.Setpoint(0.0);
        drum.Stop();
        state := EmergencyStop;
        return state;
      }
      match state {
        case SiloDrain =>
          scaleA.Update(dt, noise);
          if scaleA.mass >= recipe.materialA - MASS_TOLERANCE {
            siloA.Setpoint(0.0);
            scaleA.Setpoint(0.0);
            siloB.Setpoint(1.0);
            scaleB.Setpoint(1.0);
            state := ScaleFill;
          }
        case ScaleFill =>
          scaleB.Update(dt, noise);
          if scaleB.mass >= recipe.materialB - MASS_TOLERANCE {
            siloB.Setpoint(0.0);
            scaleB.Setpoint(0.0);
            drum.Setpoint(recipe.targetRpm as real);
            state := Mixing;
          }
        case Mixing =>
          drum.Update(dt);
          elapsed := elapsed + dt;
          if elapsed >= recipe.mixDuration as real {
            drum.Stop();
            discharge.Setpoint(1.0);
            state := Discharge;
          }
        case Discharge =>
          discharge.Setpoint(0.0);
          state := Idle;
        case Idle =>
        case EmergencyStop =>
      }
      s := state;
    }

    /** `acknowledge`, with the pressure that the guard reads. */
    method Acknowledge(p: real)
      requires Valid()
      modifies this`state, guard
      ensures var cleared := old(state) == EmergencyStop && p < guard.threshold;
              && Value() == (if cleared then old(Value()).(state := Idle) else old(Value()))
              && guard.tripped == (old(guard.tripped) && !cleared)
    {
      if state != EmergencyStop { return; }
      var ok := guard.Acknowledge(p);
      if ok {
        state := Idle;
      }
    }
  }
}
