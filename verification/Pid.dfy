/**
  The PID controller with anti-windup (bare_metal_foc/src/pid.c), floats as reals.
 */
module Pid {

  /** `PID_update`'s two tests on the integrator, in the order of the code. */
  function Saturate(x: real, limit: real): real {
    var y := if x > limit then limit else x;
    if y < -limit then -limit else y
  }

  function ClampOutput(x: real, lo: real, hi: real): real {
    var y := if x > hi then hi else x;
    if y < lo then lo else y
  }

  function IntegratorLimit(ki: real, clampMax: real): real {
    if ki > 0.000000001 then clampMax / ki else 1000000.0
  }

  /** The unclamped output: proportional, integral and derivative terms, the last on the error. */
  function Terms(kp: real, ki: real, kd: real, dt: real, error: real, integral: real, previous: real): real
    requires dt != 0.0
  {
    var pTerm := kp * error;
    var iTerm := ki * integral;
    var dTerm := kd * (error - previous) / dt;
    pTerm + iTerm + dTerm
  }

  datatype Gains = Gains(kp: real, ki: real, kd: real, dt: real, clampMin: real, clampMax: real)

  /** What an update answers to an error, given what the last update left behind. */
  function Output(g: Gains, integrator: real, previous: real, error: real): real
    requires g.dt != 0.0
  {
    var integral := Saturate(integrator + Increment(error, g.dt), IntegratorLimit(g.ki, g.clampMax));
    ClampOutput(Terms(g.kp, g.ki, g.kd, g.dt, error, integral, previous), g.clampMin, g.clampMax)
  }

  class Controller {
    var kp: real
    var ki: real
    var kd: real
    var dt: real
    var clampMin: real
    var clampMax: real
    var integrator: real
    var prevError: real

    function Settings(): Gains
      reads this
    {
      Gains(kp, ki, kd, dt, clampMin, clampMax)
    }

    /** `PID_init`, with the gains of pid_gains.h. */
    constructor ()
      ensures kp == 2.5 && ki == 0.1 && kd == 0.05 && dt == 0.001 && clampMin == -200.0 && clampMax == 200.0
      ensures integrator == 0.0 && prevError == 0.0
      ensures IntegratorLimit(ki, clampMax) == 2000.0
    {
      kp, ki, kd, dt, clampMin, clampMax := 2.5, 0.1, 0.05, 0.001, -200.0, 200.0;
      integrator, prevError := 0.0, 0.0;
    }

    /** `PID_update`. */
    method Update(setpoint: real, measurement: real) returns (output: real)
      requires dt != 0.0
      modifies this`integrator, this`prevError
      ensures prevError == setpoint - measurement
      ensures integrator == Saturate(old(integrator) + Increment(prevError, dt), IntegratorLimit(ki, clampMax))
      ensures output == Output(Settings(), old(integrator), old(prevError), setpoint - measurement)
      ensures clampMin <= clampMax ==> clampMin <= output <= clampMax
    {
      hide IntegratorLimit, Terms, Increment;
      var error := setpoint - measurement;
      integrator := integrator + error * dt;
      assert integrator == old(integrator) + Increment(error, dt) by { IncrementIs(error, dt); }
      var intLimit := IntegratorLimit(ki, clampMax);
      if integrator > intLimit { integrator := intLimit; }
      if integrator < -intLimit { integrator := -intLimit; }
      output := Terms(kp, ki, kd, dt, error, integrator, prevError);
      prevError := error;
      if output > clampMax { output := clampMax; }
      if output < clampMin { output := clampMin; }
    }

    /** `PID_reset`. */
    method Reset()
      modifies this`integrator, this`prevError
      ensures integrator == 0.0 && prevError == 0.0
    {
      integrator, prevError := 0.0, 0.0;
    }

    /**
      A whole history of updates: the integrator is the fold of the increments, and the last
      answer is the one `LastOutput` computes from the history.
     */
    method Replay(samples: seq<(real, real)>) returns (last: real)
      requires dt != 0.0
      modifies this`integrator, this`prevError
      ensures integrator == Integral(old(integrator), Increments(samples, dt), IntegratorLimit(ki, clampMax))
      ensures samples != [] ==> last == LastOutput(Settings(), old(integrator), old(prevError), samples)
    {
      hide Saturate, ClampOutput, Increment, Output;
      ghost var limit := IntegratorLimit(ki, clampMax);
      last := 0.0;
      for n := 0 to |samples|
        invariant integrator == Integral(old(integrator), Increments(samples[..n], dt), limit)
        invariant prevError == LastError(old(prevError), samples[..n])
        invariant n > 0 ==> last == LastOutput(Settings(), old(integrator), old(prevError), samples[..n])
      {
        last := Update(samples[n].0, samples[n].1);
        assert samples[..n + 1][..n] == samples[..n];
        assert Increments(samples[..n + 1], dt) == Increments(samples[..n], dt) + [Increment(prevError, dt)];
        IntegralAppend1(old(integrator), Increments(samples[..n], dt), Increment(prevError, dt), limit);
      }
      assert samples[..|samples|] == samples;
    }
  }

  /** The error of the last (setpoint, measurement) pair, or the one remembered from before. */
  function LastError(previous: real, samples: seq<(real, real)>): real {
    if samples == [] then previous else samples[|samples| - 1].0 - samples[|samples| - 1].1
  }

  function LastOutput(g: Gains, start: real, previous: real, samples: seq<(real, real)>): real
    requires g.dt != 0.0 && samples != []
  {
    var before := samples[..|samples| - 1];
    Output(g, Integral(start, Increments(before, g.dt), IntegratorLimit(g.ki, g.clampMax)),
           LastError(previous, before), LastError(previous, samples))
  }

  /** What an error adds to an unsaturated integrator. */
  function Increment(error: real, dt: real): real {
    error * dt
  }

  lemma IncrementIs(error: real, dt: real)
    ensures Increment(error, dt) == error * dt
  {
  }

  /** What each (setpoint, measurement) pair adds to an unsaturated integrator. */
  function Increments(samples: seq<(real, real)>, dt: real): (xs: seq<real>)
    ensures |xs| == |samples|
  {
    if samples == [] then []
    else
      var n := |samples| - 1;
      Increments(samples[..n], dt) + [Increment(samples[n].0 - samples[n].1, dt)]
  }

  /** The integrator after a history of increments. */
  function Integral(start: real, xs: seq<real>, limit: real): real {
    if xs == [] then start
    else Saturate(Integral(start, xs[..|xs| - 1], limit) + xs[|xs| - 1], limit)
  }

  function Sum(xs: seq<real>): real {
    if xs == [] then 0.0 else Sum(xs[..|xs| - 1]) + xs[|xs| - 1]
  }

  function Abs(x: real): real {
    if x < 0.0 then -x else x
  }

  lemma IntegralAppend1(start: real, xs: seq<real>, x: real, limit: real)
    ensures Integral(start, xs + [x], limit) == Saturate(Integral(start, xs, limit) + x, limit)
  {
    assert (xs + [x])[..|xs + [x]| - 1] == xs;
  }

  lemma SumAppend1(xs: seq<real>, x: real)
    ensures Sum(xs + [x]) == Sum(xs) + x
  {
    assert (xs + [x])[..|xs + [x]| - 1] == xs;
  }

  lemma {:induction false} IntegralBounded(start: real, xs: seq<real>, limit: real)
    requires limit >= 0.0 && Abs(start) <= limit
    ensures Abs(Integral(start, xs, limit)) <= limit
  {
  }

  /**
    The integrator is a plain sum since its last saturation: it equals `base + Sum(xs[k..])`,
    where `base` is a limit reached after `k` increments (or zero, at the start), and no
    partial sum since then has left the limits.
   */
  lemma {:induction false} SaturatingSum(xs: seq<real>, limit: real) returns (k: nat, base: real)
    requires limit >= 0.0
    ensures k <= |xs| && base == Integral(0.0, xs[..k], limit)
    ensures if k == 0 then base == 0.0 else base == limit || base == -limit
    ensures Integral(0.0, xs, limit) == base + Sum(xs[k..])
    ensures forall j :: k <= j <= |xs| ==> Abs(base + Sum(xs[k..j])) <= limit
  {
    hide Integral, Sum;
    EmptyHistory(limit);
    if xs == [] {
      return 0, 0.0;
    }
    var n := |xs| - 1;
    var init, last := xs[..n], xs[n];
    assert xs == init + [last];
    IntegralAppend1(0.0, init, last, limit);
    k, base := SaturatingSum(init, limit);
    var x := Integral(0.0, init, limit) + last;
    if x > limit || x < -limit {
      k, base := |xs|, Saturate(x, limit);
      assert xs[..k] == xs && xs[k..] == [] && xs[k..k] == [];
    } else {
      assert init[..k] == xs[..k];
      SumAppend1(init[k..], last);
      assert xs[k..] == init[k..] + [last];
      forall j | k <= j <= |xs|
        ensures Abs(base + Sum(xs[k..j])) <= limit
      {
        assert xs[k..j] == if j <= n then init[k..j] else xs[k..];
      }
    }
  }

  lemma EmptyHistory(limit: real)
    ensures Integral(0.0, [], limit) == 0.0 && Sum([]) == 0.0
  {
  }

  /** Two controllers fed the same errors never move apart. */
  lemma {:induction false} Nonexpansive(i: real, j: real, xs: seq<real>, limit: real)
    requires limit >= 0.0
    ensures Abs(Integral(i, xs, limit) - Integral(j, xs, limit)) <= Abs(i - j)
  {
    if xs != [] {
      Nonexpansive(i, j, xs[..|xs| - 1], limit);
    }
  }

  lemma {:induction false} IntegralConcat(start: real, xs: seq<real>, ys: seq<real>, limit: real)
    ensures Integral(start, xs + ys, limit) == Integral(Integral(start, xs, limit), ys, limit)
    decreases |ys|
  {
    if ys == [] {
      assert xs + ys == xs;
    } else {
      var n := |ys| - 1;
      assert xs + ys == xs + ys[..n] + [ys[n]];
      IntegralAppend1(start, xs + ys[..n], ys[n], limit);
      IntegralConcat(start, xs, ys[..n], limit);
    }
  }

  predicate Upward(xs: seq<real>) {
    forall k :: 0 <= k < |xs| ==> xs[k] >= 0.0
  }

  predicate Downward(xs: seq<real>) {
    forall k :: 0 <= k < |xs| ==> xs[k] <= 0.0
  }

  /** Increments of one sign act by their full sum, or up to the limit they point to. */
  lemma {:induction false} OneSided(start: real, xs: seq<real>, limit: real)
    requires -limit <= start <= limit
    ensures Upward(xs)
            ==> Sum(xs) >= 0.0
                && Integral(start, xs, limit) == if start + Sum(xs) > limit then limit else start + Sum(xs)
    ensures Downward(xs)
            ==> Sum(xs) <= 0.0
                && Integral(start, xs, limit) == if start + Sum(xs) < -limit then -limit else start + Sum(xs)
  {
    if xs != [] {
      var init := xs[..|xs| - 1];
      OneSided(start, init, limit);
    }
  }

  /**
    Anti-windup: after any history whatsoever, downward increments bring the integrator down
    by their full sum from the limit, or to the opposite limit.
   */
  lemma ComesDown(history: seq<real>, xs: seq<real>, limit: real)
    requires limit >= 0.0 && Downward(xs)
    ensures var i := Integral(0.0, history + xs, limit);
            i == -limit || i <= limit + Sum(xs)
  {
    IntegralConcat(0.0, history, xs, limit);
    IntegralBounded(0.0, history, limit);
    OneSided(Integral(0.0, history, limit), xs, limit);
  }

  lemma {:induction false} SumAtMost(xs: seq<real>, delta: real)
    requires forall k :: 0 <= k < |xs| ==> xs[k] <= -delta
    ensures Sum(xs) <= -(|xs| as real * delta)
  {
    if xs != [] {
      SumAtMost(xs[..|xs| - 1], delta);
    }
  }

  /**
    However long the integrator had been saturated, `n` increments of at most `-delta` with
    `n * delta >= limit` bring it to zero or below.
   */
  lemma UnwindTime(history: seq<real>, xs: seq<real>, limit: real, delta: real)
    requires limit >= 0.0 && delta >= 0.0 && |xs| as real * delta >= limit
    requires forall k :: 0 <= k < |xs| ==> xs[k] <= -delta
    ensures Integral(0.0, history + xs, limit) <= 0.0
  {
    ComesDown(history, xs, limit);
    SumAtMost(xs, delta);
  }

  /** All integrators within the limits end at `goal`. */
  ghost predicate AllMeet(xs: seq<real>, limit: real, goal: real) {
    forall i: real | -limit <= i <= limit :: Integral(i, xs, limit) == goal
  }

  /**
    Increments of one sign drive all integrators to the same limit exactly if they add up to
    the whole width of the range, and to no common value otherwise.
   */
  lemma Coupling(xs: seq<real>, limit: real)
    requires limit >= 0.0
    ensures Upward(xs) ==> (AllMeet(xs, limit, limit) <==> Sum(xs) >= 2.0 * limit)
    ensures Downward(xs) ==> (AllMeet(xs, limit, -limit) <==> Sum(xs) <= -2.0 * limit)
    ensures Upward(xs) || Downward(xs)
            ==> ((exists goal :: AllMeet(xs, limit, goal)) <==> Sum(xs) >= 2.0 * limit || Sum(xs) <= -2.0 * limit)
  {
    hide Integral, Sum;
    OneSided(-limit, xs, limit);
    OneSided(limit, xs, limit);
    forall i: real | -limit <= i <= limit
      ensures Upward(xs) && Sum(xs) >= 2.0 * limit ==> Integral(i, xs, limit) == limit
      ensures Downward(xs) && Sum(xs) <= -2.0 * limit ==> Integral(i, xs, limit) == -limit
    {
      OneSided(i, xs, limit);
    }
    if goal :| AllMeet(xs, limit, goal) {
      assert Integral(-limit, xs, limit) == goal == Integral(limit, xs, limit);
    }
  }

  /**
    Saturation erases the history: once increments of one sign have added up to the width of
    the range, the integrator is the same for every past, now and for every future.
   */
  lemma SaturationForgets(past: seq<real>, other: seq<real>, push: seq<real>, future: seq<real>, limit: real)
    requires limit >= 0.0
    requires (Upward(push) && Sum(push) >= 2.0 * limit) || (Downward(push) && Sum(push) <= -2.0 * limit)
    ensures Integral(0.0, past + push + future, limit) == Integral(0.0, other + push + future, limit)
  {
    hide Integral, Sum;
    Coupling(push, limit);
    IntegralBounded(0.0, past, limit);
    IntegralBounded(0.0, other, limit);
    IntegralConcat(0.0, past, push, limit);
    IntegralConcat(0.0, other, push, limit);
    IntegralConcat(0.0, past + push, future, limit);
    IntegralConcat(0.0, other + push, future, limit);
  }

  // ---------------------------------------------------------------------------------
  // The textbook controller
  // ---------------------------------------------------------------------------------

  /** The plain integral of the error over a history. */
  function Total(samples: seq<(real, real)>, dt: real): real {
    if samples == [] then 0.0
    else
      var n := |samples| - 1;
      Total(samples[..n], dt) + (samples[n].0 - samples[n].1) * dt
  }

  /** At no point of the history does the plain integral leave [-limit, limit]. */
  predicate Unsaturated(samples: seq<(real, real)>, dt: real, limit: real) {
    forall n :: 0 <= n <= |samples| ==> -limit <= Total(samples[..n], dt) <= limit
  }

  /** Within the limits an update adds `e * dt` to the integrator. */
  lemma PlainStep(integrator: real, e: real, dt: real, limit: real)
    requires -limit <= integrator + e * dt <= limit
    ensures Saturate(integrator + Increment(e, dt), limit) == integrator + e * dt
  {
  }

  lemma UnsaturatedBefore(samples: seq<(real, real)>, dt: real, limit: real)
    requires Unsaturated(samples, dt, limit) && samples != []
    ensures Unsaturated(samples[..|samples| - 1], dt, limit)
    ensures -limit <= Total(samples, dt) <= limit
  {
    hide Total;
    var before := samples[..|samples| - 1];
    forall n | 0 <= n <= |before|
      ensures -limit <= Total(before[..n], dt) <= limit
    {
      assert before[..n] == samples[..n];
    }
    assert samples[..|samples|] == samples;
  }

  lemma {:induction false} PlainIntegral(samples: seq<(real, real)>, dt: real, limit: real)
    requires Unsaturated(samples, dt, limit)
    ensures Integral(0.0, Increments(samples, dt), limit) == Total(samples, dt)
  {
    hide Unsaturated, Saturate, Increment;
    if samples != [] {
      var n := |samples| - 1;
      var before, error := samples[..n], samples[n].0 - samples[n].1;
      UnsaturatedBefore(samples, dt, limit);
      PlainIntegral(before, dt, limit);
      IntegralAppend1(0.0, Increments(before, dt), Increment(error, dt), limit);
      PlainStep(Total(before, dt), error, dt, limit);
    }
  }

  /** The discrete PID formula of pid.h. */
  function Textbook(g: Gains, e: real, integral: real, change: real): real
    requires g.dt != 0.0
  {
    g.kp * e + g.ki * integral + g.kd * change / g.dt
  }

  /** `y` limited to the output range. */
  predicate IsClamped(output: real, y: real, g: Gains) {
    && (g.clampMin <= y <= g.clampMax ==> output == y)
    && (y > g.clampMax ==> output == g.clampMax)
    && (y < g.clampMin ==> output == g.clampMin)
  }

  /** One update whose integrator does not saturate. */
  lemma OneAnswer(g: Gains, integrator: real, previous: real, e: real)
    requires g.dt != 0.0 && g.clampMin <= g.clampMax
    requires var limit := IntegratorLimit(g.ki, g.clampMax);
             -limit <= integrator + e * g.dt <= limit
    ensures IsClamped(Output(g, integrator, previous, e),
                      Textbook(g, e, integrator + e * g.dt, e - previous), g)
  {
    hide IntegratorLimit, Saturate, Increment;
    PlainStep(integrator, e, g.dt, IntegratorLimit(g.ki, g.clampMax));
  }

  /**
    From reset, as long as the integral has not saturated, the controller is the discrete PID
    controller: it answers kp * e + ki * (the integral of the error) + kd * (the last change of the
    error) / dt, limited to the output range.
   */
  lemma PidLaw(g: Gains, samples: seq<(real, real)>)
    requires g.dt != 0.0 && g.clampMin <= g.clampMax && samples != []
    requires Unsaturated(samples, g.dt, IntegratorLimit(g.ki, g.clampMax))
    ensures var e := LastError(0.0, samples);
            var change := e - LastError(0.0, samples[..|samples| - 1]);
            IsClamped(LastOutput(g, 0.0, 0.0, samples),
                      Textbook(g, e, Total(samples, g.dt), change), g)
  {
    hide Integral, IntegratorLimit, Unsaturated, Output, IsClamped, Textbook;
    var n, limit := |samples| - 1, IntegratorLimit(g.ki, g.clampMax);
    var before, e := samples[..n], samples[n].0 - samples[n].1;
    UnsaturatedBefore(samples, g.dt, limit);
    PlainIntegral(before, g.dt, limit);
    assert Total(samples, g.dt) == Total(before, g.dt) + e * g.dt;
    assert LastError(0.0, samples) == e;
    assert LastOutput(g, 0.0, 0.0, samples) == Output(g, Total(before, g.dt), LastError(0.0, before), e);
    OneAnswer(g, Total(before, g.dt), LastError(0.0, before), e);
  }

  lemma {:induction false} ConstantTotal(samples: seq<(real, real)>, e: real, dt: real)
    requires forall k :: 0 <= k < |samples| ==> samples[k].0 - samples[k].1 == e
    ensures Total(samples, dt) == |samples| as real * (e * dt)
  {
    if samples != [] {
      ConstantTotal(samples[..|samples| - 1], e, dt);
    }
  }

  /** From reset, the `n`-th update with the same error answers kp * e + ki * e * n * dt. */
  lemma SteadyError(g: Gains, samples: seq<(real, real)>, e: real)
    requires g.dt != 0.0 && g.clampMin <= g.clampMax && |samples| >= 2
    requires forall k :: 0 <= k < |samples| ==> samples[k].0 - samples[k].1 == e
    requires Unsaturated(samples, g.dt, IntegratorLimit(g.ki, g.clampMax))
    ensures IsClamped(LastOutput(g, 0.0, 0.0, samples), g.kp * e + g.ki * (|samples| as real * (e * g.dt)), g)
  {
    hide LastOutput, Unsaturated, IsClamped, Total, Textbook;
    var change := LastError(0.0, samples) - LastError(0.0, samples[..|samples| - 1]);
    PidLaw(g, samples);
    ConstantTotal(samples, e, g.dt);
    assert LastError(0.0, samples[..|samples| - 1]) == e;
    assert change == 0.0 && LastError(0.0, samples) == e;
    var integral := Total(samples, g.dt);
    assert IsClamped(LastOutput(g, 0.0, 0.0, samples), Textbook(g, e, integral, 0.0), g);
    NoChange(g, e, integral);
  }

  lemma NoChange(g: Gains, e: real, integral: real)
    requires g.dt != 0.0
    ensures Textbook(g, e, integral, 0.0) == g.kp * e + g.ki * integral
  {
  }

  /** Two errors after the same history, neither saturating nor clamped, differ in the answer in proportion. */
  lemma Sensitivity(g: Gains, integrator: real, previous: real, e: real, f: real)
    requires g.dt != 0.0
    requires var limit := IntegratorLimit(g.ki, g.clampMax);
             -limit <= integrator + e * g.dt <= limit && -limit <= integrator + f * g.dt <= limit
    requires g.clampMin < Output(g, integrator, previous, e) < g.clampMax
    requires g.clampMin < Output(g, integrator, previous, f) < g.clampMax
    ensures Output(g, integrator, previous, e) - Output(g, integrator, previous, f)
            == (g.kp + g.ki * g.dt + g.kd / g.dt) * (e - f)
  {
    hide IntegratorLimit, Output, Textbook;
    OneAnswer(g, integrator, previous, e);
    OneAnswer(g, integrator, previous, f);
    AnswersDiffer(g, integrator, previous, e, f);
  }

  lemma AnswersDiffer(g: Gains, integrator: real, previous: real, e: real, f: real)
    requires g.dt != 0.0
    ensures Textbook(g, e, integrator + e * g.dt, e - previous) - Textbook(g, f, integrator + f * g.dt, f - previous)
            == (g.kp + g.ki * g.dt + g.kd / g.dt) * (e - f)
  {
    var inverse := 1.0 / g.dt;
    OverDt(g.kd * (e - previous), g.dt);
    OverDt(g.kd * (f - previous), g.dt);
    OverDt(g.kd, g.dt);
  }

  lemma OverDt(a: real, dt: real)
    requires dt != 0.0
    ensures a / dt == a * (1.0 / dt)
  {
    var inverse := 1.0 / dt;
    assert inverse * dt == 1.0;
    assert a * inverse * dt == a;
  }

  /** All histories keep the integrator in [lo, hi]. */
  ghost predicate StaysIn(lo: real, hi: real, limit: real) {
    forall xs: seq<real> :: lo <= Integral(0.0, xs, limit) <= hi
  }

  lemma ReachesLimits(limit: real)
    requires limit >= 0.0
    ensures Integral(0.0, [-limit], limit) == -limit && Integral(0.0, [limit], limit) == limit
  {
    OneSided(0.0, [-limit], limit);
    OneSided(0.0, [limit], limit);
    assert Sum([-limit]) == -limit && Sum([limit]) == limit;
  }

  /** The integrator reaches both of its limits, so no smaller range will do. */
  lemma ExactRange(lo: real, hi: real, limit: real)
    requires limit >= 0.0
    ensures StaysIn(lo, hi, limit) <==> lo <= -limit && limit <= hi
  {
    hide Integral;
    if lo <= -limit && limit <= hi {
      forall xs: seq<real>
        ensures lo <= Integral(0.0, xs, limit) <= hi
      {
        IntegralBounded(0.0, xs, limit);
      }
    } else {
      ReachesLimits(limit);
    }
  }

  /**
    The header gives the integrator's range as [clamp_min/ki, clamp_max/ki]. The code uses
    plus and minus clamp_max/ki, or 1000000 for the smallest gains. The announced range holds
    for all histories exactly if it contains the code's own.
   */
  lemma AnnouncedRange(ki: real, clampMin: real, clampMax: real)
    requires ki > 0.0 && clampMax >= 0.0
    ensures StaysIn(clampMin / ki, clampMax / ki, IntegratorLimit(ki, clampMax))
            <==> if ki > 0.000000001 then clampMin <= -clampMax
                 else clampMin <= -1000000.0 * ki && 1000000.0 * ki <= clampMax
  {
    hide StaysIn;
    var limit := IntegratorLimit(ki, clampMax);
    DivOrder(clampMin, clampMax, ki);
    ExactRange(clampMin / ki, clampMax / ki, limit);
    if ki <= 0.000000001 {
      QuotientOrder(clampMin, -1000000.0, ki);
      QuotientOrder(clampMax, 1000000.0, ki);
    }
  }

  /** With the shipped gain and an output that may not be negative, the integrator still goes below zero. */
  lemma OneSidedClamp()
    ensures var ki, clampMin, clampMax := 0.1, 0.0, 200.0;
            Integral(0.0, [-1.0], IntegratorLimit(ki, clampMax)) == -1.0 < clampMin / ki
  {
    IntegralAppend1(0.0, [], -1.0, 2000.0);
    assert [] + [-1.0] == [-1.0];
  }

  /** At the gain 1e-9 and clamps of 0.0005 one large error takes the integrator to twice the announced limit. */
  lemma SmallGain()
    ensures var ki, clamp := 0.000000001, 0.0005;
            Integral(0.0, [1000000.0], IntegratorLimit(ki, clamp)) == 2.0 * (clamp / ki)
  {
    IntegralAppend1(0.0, [], 1000000.0, 1000000.0);
    assert [] + [1000000.0] == [1000000.0];
  }

  lemma QuotientOrder(a: real, b: real, k: real)
    requires k > 0.0
    ensures a / k <= b <==> a <= b * k
    ensures b <= a / k <==> b * k <= a
  {
    var p := a / k;
    assert p * k == a;
    Order(p, b, k);
    Order(b, p, k);
  }

  /** The derivative term of the code: on the error. */
  function DTerm(kd: real, dt: real, setpoint: real, measurement: real, oldSetpoint: real, oldMeasurement: real): real
    requires dt != 0.0
  {
    Terms(0.0, 0.0, kd, dt, setpoint - measurement, 0.0, oldSetpoint - oldMeasurement)
  }

  /**
    The code's comment has the derivative taken on the measurement; the code takes it on the
    error. The two differ by the kick `kd * (setpoint - oldSetpoint) / dt`, so they agree
    exactly if there is no derivative gain or the setpoint has not moved.
   */
  lemma DerivativeKick(kd: real, dt: real, setpoint: real, measurement: real,
                       oldSetpoint: real, oldMeasurement: real)
    requires dt != 0.0
    ensures var onMeasurement := -kd * (measurement - oldMeasurement) / dt;
            var d := DTerm(kd, dt, setpoint, measurement, oldSetpoint, oldMeasurement);
            && d == onMeasurement + kd * (setpoint - oldSetpoint) / dt
            && (d == onMeasurement <==> kd == 0.0 || setpoint == oldSetpoint)
  {
    var step, change := setpoint - oldSetpoint, measurement - oldMeasurement;
    assert kd * (setpoint - measurement - (oldSetpoint - oldMeasurement)) == kd * step - kd * change;
    SplitQuotient(kd * step, kd * change, dt);
    assert kd * step == 0.0 <==> kd == 0.0 || step == 0.0;
  }

  lemma SplitQuotient(a: real, b: real, c: real)
    requires c != 0.0
    ensures (a - b) / c == a / c + -b / c
    ensures a / c == 0.0 <==> a == 0.0
  {
    var q := a / c;
    assert q * c == a;
  }

  /** With the gains of pid_gains.h a setpoint step at constant measurement is amplified fifty times. */
  lemma ShippedKick(setpoint: real, oldSetpoint: real, measurement: real)
    ensures DTerm(0.05, 0.001, setpoint, measurement, oldSetpoint, measurement) == 50.0 * (setpoint - oldSetpoint)
  {
    DerivativeKick(0.05, 0.001, setpoint, measurement, oldSetpoint, measurement);
  }

  lemma DivOrder(a: real, b: real, k: real)
    requires k > 0.0 && b >= 0.0
    ensures b / k >= 0.0
    ensures a / k <= -(b / k) <==> a <= -b
  {
    var p, q := a / k, b / k;
    assert p * k == a && q * k == b;
    Order(p, -q, k);
    Order(0.0, q, k);
  }

  lemma Order(p: real, q: real, k: real)
    requires k > 0.0
    ensures p <= q <==> p * k <= q * k
  {
  }
}
