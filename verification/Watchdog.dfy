/**
  The mixer controller and its pressure watcher as two threads
  (batch_mixer_scada/src/PressureGuard.cpp, BatchController.cpp).

  The watcher reads the sensor and, in a later step, stores the latch. `acknowledge` tests
  the state and reads the sensor, later clears the latch, and later leaves the emergency stop.
  `step` touches the latch once, so it is one step here. Sensor readings are arbitrary.
 */
module Watchdog {
  import opened Mixer

  datatype Watcher = Asleep | HasRead(p: real)

  datatype Operator = Ready | Reading(p: real) | Cleared(p: real)

  /** `started` remembers the recipe of the current batch and the threads' shared latch is `tripped`. */
  datatype System = System(m: Plant, threshold: real, tripped: bool, w: Watcher, o: Operator, started: Recipe)

  datatype Move =
    | WatcherMove(p: real)                // `p` is the reading, if this move takes one
    | AckMove(p: real)                    // likewise
    | StepCall(dt: real, noise: real)
    | StartCall(healthy: bool)
    | LoadCall(recipe: Recipe)

  function WatcherStep(s: System, p: real): System {
    match s.w
    case Asleep => s.(w := HasRead(p))
    case HasRead(q) => s.(w := Asleep, tripped := s.tripped || q > s.threshold)
  }

  /** One step of a pending `acknowledge`, or the first step of a new one. */
  function AckStep(s: System, p: real): System {
    match s.o
    case Ready => if s.m.state == EmergencyStop then s.(o := Reading(p)) else s
    case Reading(q) => if q >= s.threshold then s.(o := Ready) else s.(o := Cleared(q), tripped := false)
    case Cleared(_) => s.(o := Ready, m := s.m.(state := Idle))
  }

  /** The control thread makes its other calls only when no `acknowledge` is pending. */
  function Advance(s: System, v: Move): System {
    match v
    case WatcherMove(p) => WatcherStep(s, p)
    case AckMove(p) => AckStep(s, p)
    case StepCall(dt, noise) => if s.o != Ready then s else s.(m := Step(s.m, dt, noise, s.tripped))
    case StartCall(healthy) =>
      if s.o != Ready then s
      else
        var m := Start(s.m, healthy);
        s.(m := m, started := if m.state == SiloDrain && s.m.state == Idle then m.recipe else s.started)
    case LoadCall(r) => if s.o != Ready || s.m.state != Idle then s else s.(m := s.m.(recipe := r))
  }

  function Run(s: System, moves: seq<Move>): System
    decreases |moves|
  {
    if moves == [] then s else Run(Advance(s, moves[0]), moves[1..])
  }

  lemma {:induction false} RunAppend(s: System, a: seq<Move>, b: seq<Move>)
    ensures Run(s, a + b) == Run(Run(s, a), b)
    decreases |a|
  {
    if a == [] {
      assert a + b == b;
    } else {
      assert (a + b)[1..] == a[1..] + b;
      RunAppend(Advance(s, a[0]), a[1..], b);
    }
  }

  // ---------------------------------------------------------------------------------
  // Every run
  // ---------------------------------------------------------------------------------

  datatype Limits = Limits(gainA: real, gainB: real, dtMax: real)

  predicate SystemInv(s: System, k: Limits) {
    && PlantInv(s.m, k.gainA, k.gainB, k.dtMax)
    && (Running(s.m) ==> s.m.recipe == s.started)
    && (s.o != Ready ==> s.m.state == EmergencyStop)
    && (s.o.Cleared? ==> s.o.p < s.threshold)
  }

  /** Step lengths and scale gains stay within the limits; nothing is asked of the pressure. */
  predicate Admissible(s: System, v: Move, k: Limits) {
    v.StepCall? ==> StepWithin(s.m, v.dt, v.noise, k.gainA, k.gainB, k.dtMax)
  }

  predicate AdmissibleRun(s: System, moves: seq<Move>, k: Limits)
    decreases |moves|
  {
    moves == [] || (Admissible(s, moves[0], k) && AdmissibleRun(Advance(s, moves[0]), moves[1..], k))
  }

  predicate Fresh(s: System) {
    && s.m.state == Idle && !s.m.siloA && !s.m.siloB && !s.m.discharge
    && s.m.drum.rpm == 0.0 && s.m.drum.targetRpm == 0.0
    && s.o == Ready && !s.tripped
  }

  lemma AdvanceKeepsInv(s: System, v: Move, k: Limits)
    requires SystemInv(s, k) && Admissible(s, v, k)
    ensures SystemInv(Advance(s, v), k)
  {
    hide PlantInv, Step, Start, StepWithin;
    match v
    case WatcherMove(_) =>
    case AckMove(_) =>
      LeavingEmergencyStop(s.m, k);
    case StepCall(dt, noise) =>
      StepKeepsInv(s.m, dt, noise, s.tripped, k.gainA, k.gainB, k.dtMax);
      StepKeepsRecipe(s.m, dt, noise, s.tripped);
    case StartCall(healthy) =>
      StartKeepsInv(s.m, healthy, k.gainA, k.gainB, k.dtMax);
      StartShape(s.m, healthy);
    case LoadCall(r) =>
      LoadKeepsInv(s.m, r, k);
  }

  lemma LeavingEmergencyStop(m: Plant, k: Limits)
    ensures m.state == EmergencyStop && PlantInv(m, k.gainA, k.gainB, k.dtMax)
            ==> PlantInv(m.(state := Idle), k.gainA, k.gainB, k.dtMax)
  {
  }

  lemma LoadKeepsInv(m: Plant, r: Recipe, k: Limits)
    ensures m.state == Idle && PlantInv(m, k.gainA, k.gainB, k.dtMax)
            ==> PlantInv(m.(recipe := r), k.gainA, k.gainB, k.dtMax)
  {
  }

  lemma StartShape(m: Plant, healthy: bool)
    ensures var t := Start(m, healthy);
            t.recipe == m.recipe && (t == m || (m.state == Idle && t.state == SiloDrain))
  {
  }

  lemma StepKeepsRecipe(m: Plant, dt: real, noise: real, tripped: bool)
    ensures var t := Step(m, dt, noise, tripped);
            t.recipe == m.recipe && (Running(t) ==> Running(m)) && (m.state == EmergencyStop ==> t == m)
  {
  }

  lemma {:induction false} EveryRun(s: System, moves: seq<Move>, k: Limits)
    requires SystemInv(s, k) && AdmissibleRun(s, moves, k)
    ensures SystemInv(Run(s, moves), k)
    ensures Run(s, moves).m.state == EmergencyStop ==> Safe(Run(s, moves).m)
    decreases |moves|
  {
    hide Admissible;
    if moves != [] {
      AdvanceKeepsInv(s, moves[0], k);
      EveryRun(Advance(s, moves[0]), moves[1..], k);
    }
  }

  lemma FreshInv(s: System, k: Limits)
    requires Fresh(s)
    ensures SystemInv(s, k)
  {
  }

  /**
    From power-on, for every interleaving of the watcher with any calls: at most one valve is
    open, and none in an emergency stop; the drum turns only while mixing, at the recipe's
    speed, and does so from the first step of mixing on; the recipe of a running batch is the one it was started with; and from mixing on,
    each mass is within the tolerance below and one gain above its target.
   */
  lemma EveryBatch(s: System, moves: seq<Move>, k: Limits)
    requires Fresh(s) && AdmissibleRun(s, moves, k)
    ensures var t := Run(s, moves);
            var m, r := t.m, t.started;
            && !(m.siloA && m.siloB) && !(m.siloA && m.discharge) && !(m.siloB && m.discharge)
            && (m.state == EmergencyStop ==> Safe(m))
            && (m.drum.rpm != 0.0 ==> m.state == Mixing && m.drum.rpm == r.targetRpm as real)
            && (m.state == Mixing && m.elapsed > 0.0 ==> m.drum.rpm == r.targetRpm as real)
            && (Running(m) ==> m.recipe == r)
            && (m.state in {Mixing, Discharge} ==>
                  && r.materialA - 0.5 <= m.scaleA.mass <= Max(0.0, r.materialA - 0.5) + k.gainA
                  && r.materialB - 0.5 <= m.scaleB.mass <= Max(0.0, r.materialB - 0.5) + k.gainB)
            && (m.state == Discharge ==>
                  r.mixDuration as real <= m.elapsed <= Max(0.0, r.mixDuration as real) + k.dtMax)
  {
    FreshInv(s, k);
    EveryRun(s, moves, k);
  }

  /** The recipe changes only in `Idle`, by a load call: not while a batch runs or is stopped. */
  lemma RecipeFrozen(s: System, v: Move)
    requires Advance(s, v).m.recipe != s.m.recipe
    ensures v == LoadCall(Advance(s, v).m.recipe) && s.m.state == Idle && s.o == Ready
  {
    hide Step, Start;
    match v
    case StepCall(dt, noise) => StepKeepsRecipe(s.m, dt, noise, s.tripped);
    case StartCall(healthy) => StartShape(s.m, healthy);
    case WatcherMove(_) =>
    case AckMove(_) =>
    case LoadCall(_) =>
  }

  /** A load in `Idle` replaces the recipe and nothing else; elsewhere it changes nothing. */
  lemma LoadReplaces(s: System, r: Recipe)
    requires s.o == Ready
    ensures Advance(s, LoadCall(r)) == if s.m.state == Idle then s.(m := s.m.(recipe := r)) else s
  {
  }

  /** The emergency stop is left only by an `acknowledge` whose own reading was below the threshold. */
  lemma StopIsLeftBelowThreshold(s: System, moves: seq<Move>, v: Move, k: Limits)
    requires SystemInv(s, k) && AdmissibleRun(s, moves, k)
    requires Run(s, moves).m.state == EmergencyStop
    requires Advance(Run(s, moves), v).m.state != EmergencyStop
    ensures v.AckMove? && Run(s, moves).o.Cleared? && Run(s, moves).o.p < s.threshold
  {
    EveryRun(s, moves, k);
    ThresholdFixed(s, moves);
  }

  lemma {:induction false} ThresholdFixed(s: System, moves: seq<Move>)
    ensures Run(s, moves).threshold == s.threshold
    decreases |moves|
  {
    if moves != [] {
      ThresholdFixed(Advance(s, moves[0]), moves[1..]);
    }
  }

  // ---------------------------------------------------------------------------------
  // Sustained overpressure
  // ---------------------------------------------------------------------------------

  /** Every reading taken is above the threshold. */
  predicate High(threshold: real, moves: seq<Move>) {
    forall i :: 0 <= i < |moves| ==>
      (moves[i].WatcherMove? || moves[i].AckMove? ==> moves[i].p > threshold)
  }

  /** No `acknowledge` is past its check with a reading that lets it clear the latch. */
  predicate Calm(s: System) {
    s.o.Reading? ==> s.o.p >= s.threshold
  }

  function WatcherMoves(moves: seq<Move>): nat {
    if moves == [] then 0 else (if moves[0].WatcherMove? then 1 else 0) + WatcherMoves(moves[1..])
  }

  /** How many watcher moves are left at most until a reading above the threshold is stored. */
  function PollsLeft(s: System): nat {
    if s.tripped then 0
    else
      match s.w
      case Asleep => 2
      case HasRead(p) => if p > s.threshold then 1 else 3
  }

  function AckMoves(moves: seq<Move>): nat {
    if moves == [] then 0 else (if moves[0].AckMove? then 1 else 0) + AckMoves(moves[1..])
  }

  /** One more move of a pending `acknowledge` takes it past the point where it can clear the latch. */
  lemma {:induction false} BecomesCalm(s: System, moves: seq<Move>)
    requires High(s.threshold, moves) && (Calm(s) || AckMoves(moves) > 0)
    ensures Calm(Run(s, moves))
    decreases |moves|
  {
    hide Step, Start;
    if moves != [] {
      BecomesCalm(Advance(s, moves[0]), moves[1..]);
    }
  }

  lemma HighMove(s: System, v: Move)
    requires High(s.threshold, [v]) && Calm(s)
    ensures Calm(Advance(s, v)) && (s.tripped ==> Advance(s, v).tripped)
    ensures PollsLeft(Advance(s, v)) <= PollsLeft(s)
    ensures v.WatcherMove? && !s.tripped ==> PollsLeft(Advance(s, v)) < PollsLeft(s)
  {
    hide Step, Start;
    assert [v][0] == v;
  }

  /**
    While the pressure is high, three watcher moves (the rest of a round already begun and one
    full round) set the latch, and nothing clears it again.
   */
  lemma {:induction false} WatcherLatches(s: System, moves: seq<Move>)
    requires High(s.threshold, moves) && Calm(s)
    requires WatcherMoves(moves) >= PollsLeft(s)
    ensures Run(s, moves).tripped && Calm(Run(s, moves))
    decreases |moves|
  {
    hide Advance;
    if moves != [] {
      HighMove(s, moves[0]) by { assert [moves[0]][0] == moves[0]; }
      ThresholdFixed(s, [moves[0]]);
      assert Run(s, [moves[0]]) == Advance(s, moves[0]) by { assert Run(Advance(s, moves[0]), []) == Advance(s, moves[0]); }
      WatcherLatches(Advance(s, moves[0]), moves[1..]);
    }
  }

  /** Some watcher move of the run reads more than the threshold. */
  predicate HighReading(threshold: real, moves: seq<Move>) {
    exists i :: 0 <= i < |moves| && moves[i].WatcherMove? && moves[i].p > threshold
  }

  /** The watcher holds a reading above the threshold that it has not stored yet. */
  predicate AboutToTrip(s: System) {
    s.w.HasRead? && s.w.p > s.threshold
  }

  /** The watcher trips on overpressure only: a set latch goes back to a reading above the threshold. */
  lemma {:induction false} TripHasCause(s: System, moves: seq<Move>)
    ensures Run(s, moves).tripped ==> s.tripped || AboutToTrip(s) || HighReading(s.threshold, moves)
    decreases |moves|
  {
    if moves != [] {
      var t := Advance(s, moves[0]);
      TripMove(s, moves[0]);
      TripHasCause(t, moves[1..]);
      if HighReading(s.threshold, moves[1..]) {
        var i :| 0 <= i < |moves[1..]| && moves[1..][i].WatcherMove? && moves[1..][i].p > s.threshold;
        assert moves[i + 1] == moves[1..][i];
      }
    }
  }

  lemma TripMove(s: System, v: Move)
    ensures var t := Advance(s, v);
            && t.threshold == s.threshold
            && (t.tripped ==> s.tripped || AboutToTrip(s))
            && (AboutToTrip(t) ==> AboutToTrip(s) || (v.WatcherMove? && v.p > s.threshold))
  {
    hide Step, Start;
  }

  lemma StopHasCause(s: System, v: Move)
    ensures Advance(s, v).m.state == EmergencyStop ==> s.m.state == EmergencyStop || s.tripped
  {
  }

  /** At normal pressure the controller is never in the emergency stop. */
  lemma {:induction false} NeverStopped(s: System, moves: seq<Move>)
    requires s.m.state != EmergencyStop && !s.tripped && !AboutToTrip(s) && !HighReading(s.threshold, moves)
    ensures Run(s, moves).m.state != EmergencyStop && !Run(s, moves).tripped
    decreases |moves|
  {
    hide Advance;
    if moves != [] {
      TripMove(s, moves[0]);
      StopHasCause(s, moves[0]);
      assert !HighReading(s.threshold, moves[1..]) by {
        assert forall i :: 0 <= i < |moves[1..]| ==> moves[1..][i] == moves[i + 1];
      }
      NeverStopped(Advance(s, moves[0]), moves[1..]);
    }
  }

  function StepCalls(moves: seq<Move>): nat {
    if moves == [] then 0 else (if moves[0].StepCall? then 1 else 0) + StepCalls(moves[1..])
  }

  /** Every step in the run is at least `d` long and adds at least `g` to the active scale. */
  predicate AllProgress(s: System, moves: seq<Move>, d: real, g: real)
    decreases |moves|
  {
    || moves == []
    || (&& (moves[0].StepCall? ==> Progress(s.m, Input(moves[0].dt, moves[0].noise), d, g))
        && AllProgress(Advance(s, moves[0]), moves[1..], d, g))
  }

  /** Watcher moves, acknowledges and steps, but no new batch and no new recipe. */
  predicate OneBatch(moves: seq<Move>) {
    forall i :: 0 <= i < |moves| ==> !moves[i].StartCall? && !moves[i].LoadCall?
  }

  /**
    At normal pressure a batch under way ends within its rank, whatever watcher moves and
    vain acknowledges fall between the steps.
   */
  lemma {:induction false} BatchEnds(s: System, moves: seq<Move>, d: real, g: real)
    requires d > 0.0 && g > 0.0 && s.o == Ready && Filling(s.m)
    requires s.m.state != EmergencyStop && !s.tripped && !AboutToTrip(s) && !HighReading(s.threshold, moves)
    requires OneBatch(moves) && AllProgress(s, moves, d, g) && StepCalls(moves) >= Rank(s.m, d, g)
    ensures Run(s, moves).m.state == Idle
    decreases |moves|
  {
    hide Rank, Step, Progress, Filling;
    RankOfIdle(s.m, d, g);
    if moves != [] {
      var t := Advance(s, moves[0]);
      TripMove(s, moves[0]);
      assert !HighReading(s.threshold, moves[1..]) by {
        assert forall i :: 0 <= i < |moves[1..]| ==> moves[1..][i] == moves[i + 1];
      }
      if moves[0].StepCall? {
        var i := Input(moves[0].dt, moves[0].noise);
        if s.m.state == Idle {
          IdleStays(s.m, i.dt, i.noise);
        } else {
          RankDecreases(s.m, i, d, g);
        }
      }
      RankOfIdle(t.m, d, g);
      BatchEnds(t, moves[1..], d, g);
    }
  }

  lemma IdleStays(m: Plant, dt: real, noise: real)
    requires m.state == Idle
    ensures Step(m, dt, noise, false) == m
  {
  }

  /**
    From power-on at normal pressure, a started batch is back in `Idle` after the number of
    steps computed from the recipe, whatever else the two threads do in between.
   */
  lemma StartedBatchCompletes(s: System, moves: seq<Move>, d: real, g: real)
    requires Fresh(s) && s.w == Asleep && d > 0.0 && g > 0.0
    requires !HighReading(s.threshold, moves) && OneBatch(moves)
    requires AllProgress(Advance(s, StartCall(true)), moves, d, g)
    requires StepCalls(moves) >= StepsFor(s.m.recipe.materialA - 0.5, g) + StepsFor(s.m.recipe.materialB - 0.5, g)
                                 + StepsFor(s.m.recipe.mixDuration as real, d) + 1
    ensures Advance(s, StartCall(true)).m.state == SiloDrain
    ensures Run(s, [StartCall(true)] + moves).m.state == Idle
  {
    var t := Advance(s, StartCall(true));
    assert ([StartCall(true)] + moves)[1..] == moves;
    BatchEnds(t, moves, d, g);
  }

  /** An `acknowledge` whose reading is below the threshold leaves the stop and clears the latch; any other changes nothing. */
  lemma AcknowledgeDecides(s: System, p: real, q: real, r: real)
    requires s.m.state == EmergencyStop && s.o == Ready
    ensures var t := Advance(Advance(Advance(s, AckMove(p)), AckMove(q)), AckMove(r));
            && (p < s.threshold ==> t == s.(m := s.m.(state := Idle), tripped := false))
            && (p >= s.threshold ==> Advance(Advance(s, AckMove(p)), AckMove(q)) == s)
  {
  }

  /**
    The latch survives every continuation at high pressure exactly if no `acknowledge` is past
    its check with a low reading: such a call clears it although the pressure has risen since.
   */
  lemma LatchSurvives(s: System)
    requires s.tripped
    ensures (forall moves :: High(s.threshold, moves) ==> Run(s, moves).tripped) <==> Calm(s)
  {
    if Calm(s) {
      forall moves | High(s.threshold, moves)
        ensures Run(s, moves).tripped
      {
        WatcherLatches(s, moves);
      }
    } else {
      var moves := [AckMove(s.threshold + 1.0)];
      assert High(s.threshold, moves);
      assert Run(s, moves) == Run(AckStep(s, s.threshold + 1.0), []) by { assert moves[1..] == []; }
    }
  }

  /**
    Pressure above the threshold from some point on: once an `acknowledge` already past its
    check, if there is one, has moved on (`settle`), and the watcher has then had three moves
    (`poll`), the next `step` call puts or keeps the controller in the emergency stop, with
    all valves closed and the drum at rest.
   */
  lemma OverpressureStops(s: System, before: seq<Move>, settle: seq<Move>, poll: seq<Move>,
                          dt: real, noise: real, k: Limits)
    requires SystemInv(s, k) && AdmissibleRun(s, before + settle + poll, k)
    requires High(s.threshold, settle) && High(s.threshold, poll)
    requires Calm(Run(s, before)) || AckMoves(settle) > 0
    requires WatcherMoves(poll) >= 3
    requires Run(s, before + settle + poll).o == Ready
    ensures var t := Advance(Run(s, before + settle + poll), StepCall(dt, noise));
            t.m.state == EmergencyStop && Safe(t.m) && t.tripped
  {
    RunAppend(s, before + settle, poll);
    RunAppend(s, before, settle);
    ThresholdFixed(s, before);
    BecomesCalm(Run(s, before), settle);
    ThresholdFixed(s, before + settle);
    WatcherLatches(Run(s, before + settle), poll);
    EveryRun(s, before + settle + poll, k);
  }

  /**
    The hypothesis is needed. A watcher round that sees overpressure and sets the latch is
    lost if an `acknowledge` that read the sensor before the rise clears it afterwards.
   */
  lemma LatchRace(s: System)
    requires s.m.state == EmergencyStop && s.o == Ready && s.w == Asleep
    ensures var read := Run(s, [AckMove(s.threshold - 1.0)]);
            var moves := [WatcherMove(s.threshold + 1.0), WatcherMove(s.threshold + 1.0), AckMove(s.threshold + 1.0)];
            && High(s.threshold, moves)
            && Run(read, moves[..2]).tripped && !Run(read, moves).tripped
  {
    var high := s.threshold + 1.0;
    var read := AckStep(s, s.threshold - 1.0);
    var moves := [WatcherMove(high), WatcherMove(high), AckMove(high)];
    assert Run(s, [AckMove(s.threshold - 1.0)]) == Run(read, []);
    var seen := WatcherStep(read, high);
    var stored := WatcherStep(seen, high);
    assert moves[..2] == [WatcherMove(high), WatcherMove(high)];
    assert Run(read, moves[..2]) == Run(seen, [WatcherMove(high)]) == Run(stored, []);
    assert Run(read, moves) == Run(seen, [WatcherMove(high), AckMove(high)]) == Run(stored, [AckMove(high)])
        == Run(AckStep(stored, high), []);
  }
}
