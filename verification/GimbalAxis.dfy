/**
 One simulated gimbal axis: the `update_axis` routine shared by the gimbal manager and the
 gimbal device, over exact reals.  `NextAngle` is the one-tick reference; the lemmas say what
 any number of ticks amounts to.
 */
module GimbalAxis {
  import opened Options

  const DEFAULT_SLEW_RATE := 60.0

  /** The simulation period: 50 Hz. */
  const DT := 0.02

  datatype Limits = Limits(lo: real, hi: real)

  const PITCH_LIMITS := Limits(-90.0, 30.0)
  const YAW_LIMITS := Limits(-160.0, 160.0)

  /** What the caller asks of an axis: an angle setpoint and a rate setpoint, both optional. */
  datatype Demand = Demand(setpoint: Option<real>, rate: Option<real>)

  /** What a demand amounts to in one tick. */
  datatype Motion = Slew(target: real, reach: real) | Drift(delta: real)

  function Abs(x: real): real {
    if x < 0.0 then -x else x
  }

  function Clamp(x: real, lo: real, hi: real): real
    requires lo <= hi
  {
    if x < lo then lo else if hi < x then hi else x
  }

  function Limit(x: real, limits: Limits): real
    requires limits.lo <= limits.hi
  {
    Clamp(x, limits.lo, limits.hi)
  }

  ghost predicate Within(angle: real, limits: Limits) {
    limits.lo <= angle <= limits.hi
  }

  /** `angle` moved towards `target` by at most `reach`, stopping there. */
  function Toward(angle: real, target: real, reach: real): real {
    if Abs(target - angle) <= reach then target
    else if angle < target then angle + reach
    else angle - reach
  }

  /** The longest move in `dt` seconds at `rate` degrees per second. */
  function Reach(rate: real, dt: real): (r: real)
    requires 0.0 < dt
    ensures 0.0 <= r
  {
    Abs(rate) * dt
  }

  /** The rate setpoint caps a move towards an angle, and is the move itself where there is no angle. */
  function MotionOf(demand: Demand, dt: real): (m: Motion)
    requires 0.0 < dt
    ensures m.Slew? ==> 0.0 <= m.reach
  {
    match demand.setpoint
    case Some(setpoint) =>
      Slew(setpoint, Reach(demand.rate.GetOr(DEFAULT_SLEW_RATE), dt))
    case None => Drift(demand.rate.GetOr(0.0) * dt)
  }

  function NextAngle(motion: Motion, limits: Limits, angle: real): real
    requires limits.lo <= limits.hi
  {
    match motion
    case Slew(target, reach) => Limit(Toward(angle, target, reach), limits)
    case Drift(delta) => Limit(angle + delta, limits)
  }

  /** The rate reported for a tick: integrated over that tick it is the motion. */
  function ReportedRate(previous: real, angle: real, dt: real): (r: real)
    requires 0.0 < dt
    ensures r * dt == angle - previous
  {
    (angle - previous) / dt
  }

  /** The routine itself: the new angle, and the rate it reports for this tick. */
  method UpdateAxis(dt: real, demand: Demand, limits: Limits, angle: real) returns (angle': real, rate: real)
    requires 0.0 < dt && limits.lo <= limits.hi
    ensures angle' == NextAngle(MotionOf(demand, dt), limits, angle)
    ensures rate == ReportedRate(angle, angle', dt)
  {
    var previous := angle;
    angle' := angle;
    if demand.setpoint.Some? {
      var maxStep := Reach(demand.rate.GetOr(DEFAULT_SLEW_RATE), dt);
      angle' := angle' + Clamp(demand.setpoint.value - angle', -maxStep, maxStep);
    } else if demand.rate.Some? {
      angle' := angle' + demand.rate.value * dt;
    }
    angle' := Clamp(angle', limits.lo, limits.hi);
    rate := ReportedRate(previous, angle', dt);
  }

  // ---------------------------------------------------------------- runs with a fixed motion

  function After(n: nat, motion: Motion, limits: Limits, angle: real): real
    requires limits.lo <= limits.hi
  {
    if n == 0 then angle else NextAngle(motion, limits, After(n - 1, motion, limits, angle))
  }

  /** x added up n times. */
  function Times(n: nat, x: real): (r: real)
    ensures 0.0 <= x ==> 0.0 <= r
    ensures x <= 0.0 ==> r <= 0.0
  {
    if n == 0 then 0.0 else Times(n - 1, x) + x
  }

  lemma TimesIsProduct(n: nat, x: real)
    ensures Times(n, x) == n as real * x
  {
  }

  lemma {:induction false} TimesGrows(m: nat, n: nat, x: real)
    requires m <= n && 0.0 <= x
    ensures Times(m, x) <= Times(n, x)
  {
    if m < n {
      TimesGrows(m, n - 1, x);
    }
  }

  /** Where n ticks lead, without iterating. */
  function Destination(n: nat, motion: Motion, limits: Limits, angle: real): real
    requires limits.lo <= limits.hi
  {
    match motion
    case Slew(target, reach) => Toward(angle, Limit(target, limits), Times(n, reach))
    case Drift(delta) => Limit(angle + Times(n, delta), limits)
  }

  lemma SlewsAdd(angle: real, target: real, limits: Limits, covered: real, reach: real)
    requires limits.lo <= limits.hi && Within(angle, limits) && 0.0 <= covered && 0.0 <= reach
    ensures var goal := Limit(target, limits);
            Limit(Toward(Toward(angle, goal, covered), target, reach), limits) == Toward(angle, goal, covered + reach)
  {
  }

  lemma DriftsAdd(angle: real, limits: Limits, covered: real, delta: real)
    requires limits.lo <= limits.hi && Within(angle, limits)
    requires 0.0 <= delta ==> 0.0 <= covered
    requires delta <= 0.0 ==> covered <= 0.0
    ensures Limit(Limit(angle + covered, limits) + delta, limits) == Limit(angle + (covered + delta), limits)
  {
  }

  lemma {:induction false} SlewsCompose(n: nat, target: real, reach: real, limits: Limits, angle: real)
    requires limits.lo <= limits.hi && Within(angle, limits) && 0.0 <= reach
    ensures After(n, Slew(target, reach), limits, angle) == Toward(angle, Limit(target, limits), Times(n, reach))
  {
    if n != 0 {
      SlewsCompose(n - 1, target, reach, limits, angle);
      SlewsAdd(angle, target, limits, Times(n - 1, reach), reach);
    }
  }

  lemma {:induction false} DriftsCompose(n: nat, delta: real, limits: Limits, angle: real)
    requires limits.lo <= limits.hi && Within(angle, limits)
    ensures After(n, Drift(delta), limits, angle) == Limit(angle + Times(n, delta), limits)
  {
    if n != 0 {
      DriftsCompose(n - 1, delta, limits, angle);
      DriftsAdd(angle, limits, Times(n - 1, delta), delta);
    }
  }

  /**
   n clamped ticks with a constant demand are one clamped move of n times the length: towards a
   setpoint one long slew to the clamped setpoint, under a rate alone one clamp of the integral.
   */
  lemma {:induction false} TicksCompose(n: nat, motion: Motion, limits: Limits, angle: real)
    requires limits.lo <= limits.hi && Within(angle, limits)
    requires motion.Slew? ==> 0.0 <= motion.reach
    ensures After(n, motion, limits, angle) == Destination(n, motion, limits, angle)
    ensures Within(After(n, motion, limits, angle), limits)
  {
    match motion {
      case Slew(target, reach) => SlewsCompose(n, target, reach, limits, angle);
      case Drift(delta) => DriftsCompose(n, delta, limits, angle);
    }
  }

  /** A setpoint is met at tick n exactly when n moves cover the distance to its clamped value. */
  lemma ReachedExactlyWhenCovered(n: nat, motion: Motion, limits: Limits, angle: real)
    requires limits.lo <= limits.hi && Within(angle, limits)
    requires motion.Slew? && 0.0 <= motion.reach
    ensures After(n, motion, limits, angle) == Limit(motion.target, limits)
            <==> Abs(Limit(motion.target, limits) - angle) <= Times(n, motion.reach)
  {
    TicksCompose(n, motion, limits, angle);
  }

  /** Later ticks lie between earlier ones and the clamped setpoint: monotone, no overshoot. */
  lemma {:induction false} NeverOvershoots(m: nat, n: nat, motion: Motion, limits: Limits, angle: real)
    requires limits.lo <= limits.hi && Within(angle, limits)
    requires motion.Slew? && 0.0 <= motion.reach && m <= n
    ensures var goal := Limit(motion.target, limits);
            var early, late := After(m, motion, limits, angle), After(n, motion, limits, angle);
            early <= late <= goal || goal <= late <= early
  {
    TicksCompose(m, motion, limits, angle);
    TicksCompose(n, motion, limits, angle);
    TimesGrows(m, n, motion.reach);
  }

  // ---------------------------------------------------------------- what was asked for

  /**
   Where an axis stands n ticks after being given a setpoint and a rate: as near to the setpoint,
   brought within the limits, as that many fiftieths of a second at that rate allow, or at 60
   degrees a second where there is none; or, without a setpoint, where the rate alone has taken it.
   */
  function Traveled(n: nat, setpoint: Option<real>, rate: Option<real>, lo: real, hi: real, start: real): real
    requires lo <= hi
  {
    match setpoint
    case Some(target) => Nearest(start, Bounded(target, lo, hi), Times(n, Speed(rate) * 0.02))
    case None => Bounded(start + Times(n, Velocity(rate) * 0.02), lo, hi)
  }

  function Speed(rate: Option<real>): real {
    match rate
    case Some(r) => if r < 0.0 then -r else r
    case None => 60.0
  }

  function Velocity(rate: Option<real>): real {
    match rate
    case Some(r) => r
    case None => 0.0
  }

  function Bounded(x: real, lo: real, hi: real): real {
    if x < lo then lo else if hi < x then hi else x
  }

  /** The point within `reach` of `start` that is nearest to `goal`. */
  function Nearest(start: real, goal: real, reach: real): real {
    Bounded(goal, start - reach, start + reach)
  }

  lemma TowardIsNearest(start: real, goal: real, reach: real)
    requires 0.0 <= reach
    ensures Toward(start, goal, reach) == Nearest(start, goal, reach)
  {
  }

  lemma MotionInNumbers(demand: Demand)
    ensures MotionOf(demand, DT)
            == match demand.setpoint
               case Some(target) => Slew(target, Speed(demand.rate) * 0.02)
               case None => Drift(Velocity(demand.rate) * 0.02)
  {
  }

  lemma TicksTravel(n: nat, demand: Demand, limits: Limits, start: real)
    requires limits.lo <= limits.hi && Within(start, limits)
    ensures After(n, MotionOf(demand, DT), limits, start)
            == Traveled(n, demand.setpoint, demand.rate, limits.lo, limits.hi, start)
  {
    MotionInNumbers(demand);
    match demand.setpoint {
      case Some(target) => SlewTravels(n, target, Speed(demand.rate) * 0.02, limits, start);
      case None => DriftsCompose(n, Velocity(demand.rate) * 0.02, limits, start);
    }
  }

  lemma SlewTravels(n: nat, target: real, reach: real, limits: Limits, start: real)
    requires limits.lo <= limits.hi && Within(start, limits) && 0.0 <= reach
    ensures After(n, Slew(target, reach), limits, start)
            == Nearest(start, Bounded(target, limits.lo, limits.hi), Times(n, reach))
  {
    SlewsCompose(n, target, reach, limits, start);
    TowardIsNearest(start, Limit(target, limits), Times(n, reach));
  }

  // ---------------------------------------------------------------- runs with any motions

  function AfterAll(history: seq<Motion>, limits: Limits, angle: real): real
    requires limits.lo <= limits.hi
  {
    if history == [] then angle else AfterAll(history[1..], limits, NextAngle(history[0], limits, angle))
  }

  /** The reported rates of a run, integrated over its ticks. */
  function IntegratedRates(history: seq<Motion>, limits: Limits, dt: real, angle: real): real
    requires 0.0 < dt && limits.lo <= limits.hi
  {
    if history == [] then 0.0
    else
      var next := NextAngle(history[0], limits, angle);
      ReportedRate(angle, next, dt) * dt + IntegratedRates(history[1..], limits, dt, next)
  }

  /** Integrating the reported rates gives back the motion, and the axis never leaves its limits. */
  lemma {:induction false} RatesIntegrateToMotion(history: seq<Motion>, limits: Limits, dt: real, angle: real)
    requires 0.0 < dt && limits.lo <= limits.hi && Within(angle, limits)
    ensures IntegratedRates(history, limits, dt, angle) == AfterAll(history, limits, angle) - angle
    ensures Within(AfterAll(history, limits, angle), limits)
  {
    if history != [] {
      RatesIntegrateToMotion(history[1..], limits, dt, NextAngle(history[0], limits, angle));
    }
  }
}
