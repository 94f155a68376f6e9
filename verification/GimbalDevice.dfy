/**
 The standalone gimbal device: it obeys whichever manager speaks to it, and simulates the same
 two axes as the gimbal manager.
 */
module GimbalDevice {
  import opened Options
  import opened Numbers
  import opened GimbalAxis
  import opened GimbalProtocol
  import opened GimbalLaws

  datatype DeviceState = DeviceState(
    setpoints: Setpoints, pose: Pose, yawLock: bool, managerSysid: byte, managerCompid: byte)

  const DEVICE_INITIAL := DeviceState(
    Setpoints(None, None, None, None), Pose(0.0, 0.0, 0.0, 0.0), false, 0, 0)

  datatype DeviceEvent = Order(sender: Sender, attitude: AttitudeFields) | DeviceTick

  // ---------------------------------------------------------------- what one event does

  /** A setpoint message: angles from its quaternion or none, rates from its velocities or none. */
  function Ordered(w: World, s: DeviceState, from: Sender, m: AttitudeFields): DeviceState {
    if !ForUs(w, m.targetSystem, m.targetComponent, 0) then s
    else
      var angles := if m.q.Some? then Some(w.euler(m.q.value)) else None;
      var setpoints := Setpoints(
        if angles.Some? then Some(angles.value.pitch) else None,
        if angles.Some? then Some(angles.value.yaw) else None,
        OptionalDegrees(w, m.rateY), OptionalDegrees(w, m.rateZ));
      s.(setpoints := setpoints, yawLock := HasFlag(m.flags, FLAG_YAW_LOCK),
         managerSysid := Low8(from.sysid), managerCompid := Low8(from.compid))
  }

  function Pitch(s: Setpoints, dt: real): (m: Motion)
    requires 0.0 < dt
    ensures m.Slew? ==> 0.0 <= m.reach
  {
    MotionOf(Demand(s.pitch, s.pitchRate), dt)
  }

  function Yaw(s: Setpoints, dt: real): (m: Motion)
    requires 0.0 < dt
    ensures m.Slew? ==> 0.0 <= m.reach
  {
    MotionOf(Demand(s.yaw, s.yawRate), dt)
  }

  function Ticked(s: DeviceState, dt: real): DeviceState
    requires 0.0 < dt
  {
    var pitch := NextAngle(Pitch(s.setpoints, dt), PITCH_LIMITS, s.pose.pitch);
    var yaw := NextAngle(Yaw(s.setpoints, dt), YAW_LIMITS, s.pose.yaw);
    s.(pose := Pose(pitch, yaw, ReportedRate(s.pose.pitch, pitch, dt), ReportedRate(s.pose.yaw, yaw, dt)))
  }

  function DeviceStep(w: World, s: DeviceState, e: DeviceEvent): DeviceState {
    match e
    case Order(from, m) => Ordered(w, s, from, m)
    case DeviceTick => Ticked(s, DT)
  }

  class GimbalDevice {
    const w: World
    var setpoints: Setpoints
    var pose: Pose
    var yawLock: bool
    var managerSysid: byte
    var managerCompid: byte

    function Now(): DeviceState
      reads this
    {
      DeviceState(setpoints, pose, yawLock, managerSysid, managerCompid)
    }

    constructor (w: World)
      ensures this.w == w && Now() == DEVICE_INITIAL
    {
      this.w := w;
      setpoints := Setpoints(None, None, None, None);
      pose := Pose(0.0, 0.0, 0.0, 0.0);
      yawLock := false;
      managerSysid, managerCompid := 0, 0;
    }

    method HandleSetAttitude(from: Sender, m: AttitudeFields)
      modifies this
      ensures Now() == Ordered(w, old(Now()), from, m)
    {
      if !ForUs(w, m.targetSystem, m.targetComponent, 0) {
        return;
      }
      if Low8(from.sysid) != managerSysid || Low8(from.compid) != managerCompid {
        managerSysid := Low8(from.sysid);
        managerCompid := Low8(from.compid);
      }
      ApplyFlags(m.flags);
      if m.q.Some? {
        var setpoint := w.euler(m.q.value);
        setpoints := setpoints.(pitch := Some(setpoint.pitch));
        setpoints := setpoints.(yaw := Some(setpoint.yaw));
      } else {
        setpoints := setpoints.(pitch := None);
        setpoints := setpoints.(yaw := None);
      }
      setpoints := setpoints.(pitchRate := if m.rateY.Some? then Some(w.degrees(m.rateY.value)) else None);
      setpoints := setpoints.(yawRate := if m.rateZ.Some? then Some(w.degrees(m.rateZ.value)) else None);
    }

    /** As in the manager, the zeros of NEUTRAL do not outlive the message. */
    method ApplyFlags(flags: nat)
      modifies `yawLock, `setpoints
      ensures yawLock == HasFlag(flags, FLAG_YAW_LOCK)
      ensures if HasFlag(flags, FLAG_NEUTRAL)
              then setpoints == old(setpoints).(pitch := Some(0.0), yaw := Some(0.0))
              else setpoints == old(setpoints)
    {
      yawLock := HasFlag(flags, FLAG_YAW_LOCK);
      if HasFlag(flags, FLAG_NEUTRAL) {
        setpoints := setpoints.(pitch := Some(0.0), yaw := Some(0.0));
      }
    }

    method UpdateSimulation(dt: real)
      requires 0.0 < dt
      modifies `pose
      ensures Now() == Ticked(old(Now()), dt)
    {
      var pitch, pitchRate := UpdateAxis(dt, Demand(setpoints.pitch, setpoints.pitchRate), PITCH_LIMITS, pose.pitch);
      pose := pose.(pitch := pitch, pitchRate := pitchRate);
      var yaw, yawRate := UpdateAxis(dt, Demand(setpoints.yaw, setpoints.yawRate), YAW_LIMITS, pose.yaw);
      pose := pose.(yaw := yaw, yawRate := yawRate);
    }
  }

  // ---------------------------------------------------------------- runs

  function DeviceRun(w: World, s: DeviceState, es: seq<DeviceEvent>): DeviceState
    decreases es
  {
    if es == [] then s else DeviceRun(w, DeviceStep(w, s, es[0]), es[1..])
  }

  /** The rates a run reports after each tick, integrated over the ticks. */
  function ReportedTravel(w: World, s: DeviceState, es: seq<DeviceEvent>): PitchYaw
    decreases es
  {
    if es == [] then PitchYaw(0.0, 0.0)
    else
      var t := DeviceStep(w, s, es[0]);
      var rest := ReportedTravel(w, t, es[1..]);
      if es[0].Order? then rest
      else PitchYaw(t.pose.pitchRate * DT + rest.pitch, t.pose.yawRate * DT + rest.yaw)
  }

  ghost predicate InRange(s: DeviceState) {
    Within(s.pose.pitch, PITCH_LIMITS) && Within(s.pose.yaw, YAW_LIMITS)
  }

  lemma StepAccounts(w: World, s: DeviceState, e: DeviceEvent)
    requires InRange(s)
    ensures var t := DeviceStep(w, s, e);
            && InRange(t)
            && (if e.Order? then t.pose == s.pose
                else t.pose.pitchRate * DT == t.pose.pitch - s.pose.pitch
                     && t.pose.yawRate * DT == t.pose.yaw - s.pose.yaw)
  {
  }

  /** For every run of messages and ticks the axes stay in range, and the reported rates add up to where they went. */
  lemma {:induction false} RunsAccount(w: World, s: DeviceState, es: seq<DeviceEvent>)
    requires InRange(s)
    ensures InRange(DEVICE_INITIAL)
    ensures var t := DeviceRun(w, s, es);
            && InRange(t)
            && ReportedTravel(w, s, es) == PitchYaw(t.pose.pitch - s.pose.pitch, t.pose.yaw - s.pose.yaw)
    decreases es
  {
    if es != [] {
      StepAccounts(w, s, es[0]);
      RunsAccount(w, DeviceStep(w, s, es[0]), es[1..]);
    }
  }

  function Ticks(s: DeviceState, n: nat): DeviceState {
    if n == 0 then s else Ticked(Ticks(s, n - 1), DT)
  }

  lemma {:induction false} TicksPose(s: DeviceState, n: nat)
    requires InRange(s)
    ensures Ticks(s, n).setpoints == s.setpoints
    ensures Ticks(s, n).pose.pitch == After(n, Pitch(s.setpoints, DT), PITCH_LIMITS, s.pose.pitch)
    ensures Ticks(s, n).pose.yaw == After(n, Yaw(s.setpoints, DT), YAW_LIMITS, s.pose.yaw)
  {
    if n != 0 {
      TicksPose(s, n - 1);
    }
  }

  /**
   A message without attitude sets the axes drifting, at no rate where it has none: n ticks later
   each stands at one clamp of the whole drift.
   */
  lemma RateOnlyDrifts(w: World, s: DeviceState, from: Sender, m: AttitudeFields, n: nat)
    requires InRange(s)
    requires ForUs(w, m.targetSystem, m.targetComponent, 0) && m.q.None?
    ensures var t := Ticks(Ordered(w, s, from, m), n);
            && t.pose.pitch == Limit(s.pose.pitch + Times(n, PerTick(w, m.rateY)), PITCH_LIMITS)
            && t.pose.yaw == Limit(s.pose.yaw + Times(n, PerTick(w, m.rateZ)), YAW_LIMITS)
  {
    var t := Ordered(w, s, from, m);
    TicksPose(t, n);
    WithoutAttitude(w, s, from, m);
    DriftsCompose(n, PerTick(w, m.rateY), PITCH_LIMITS, s.pose.pitch);
    DriftsCompose(n, PerTick(w, m.rateZ), YAW_LIMITS, s.pose.yaw);
  }

  lemma WithoutAttitude(w: World, s: DeviceState, from: Sender, m: AttitudeFields)
    requires ForUs(w, m.targetSystem, m.targetComponent, 0) && m.q.None?
    ensures var t := Ordered(w, s, from, m);
            && t.pose == s.pose
            && Pitch(t.setpoints, DT) == Drift(PerTick(w, m.rateY))
            && Yaw(t.setpoints, DT) == Drift(PerTick(w, m.rateZ))
  {
  }

  /** How far an angular velocity, if there is one, goes in a tick. */
  function PerTick(w: World, rate: Option<real>): real {
    OptionalDegrees(w, rate).GetOr(0.0) * DT
  }

  /**
   A setpoint message for this device, whoever sends it: the sender is noted, and while only ticks
   follow, the axes travel to the angles of its quaternion, pitch at its y and yaw at its z rate.
   Any other message is ignored.
   */
  lemma OrdersTravel(w: World, s: DeviceState, from: Sender, m: AttitudeFields, n: nat)
    requires InRange(s)
    ensures var t := DeviceStep(w, s, Order(from, m));
            if m.targetSystem !in {0, w.ownSysid} || m.targetComponent !in {0, w.ownCompid} then t == s
            else
              var pitch, yaw := match m.q
                                case None => None
                                case Some(q) => Some(w.euler(q).pitch),
                                match m.q
                                case None => None
                                case Some(q) => Some(w.euler(q).yaw);
              && t.pose == s.pose && t.yawLock == MaskSet(m.flags, 16)
              && t.managerSysid == from.sysid % 256 && t.managerCompid == from.compid % 256
              && Ticks(t, n).pose.pitch == Traveled(n, pitch, InDegrees(w, m.rateY), -90.0, 30.0, s.pose.pitch)
              && Ticks(t, n).pose.yaw == Traveled(n, yaw, InDegrees(w, m.rateZ), -160.0, 160.0, s.pose.yaw)
  {
    var t := Ordered(w, s, from, m);
    AddressIsHere(w, m.targetSystem, m.targetComponent, 0);
    MasksAreBits(m.flags);
    TicksPose(t, n);
    TicksTravel(n, Demand(t.setpoints.pitch, t.setpoints.pitchRate), PITCH_LIMITS, s.pose.pitch);
    TicksTravel(n, Demand(t.setpoints.yaw, t.setpoints.yawRate), YAW_LIMITS, s.pose.yaw);
  }

  /** As for the manager, setting NEUTRAL makes no difference. */
  lemma NeutralChangesNothing(w: World, s: DeviceState, from: Sender, m: AttitudeFields)
    ensures Ordered(w, s, from, m.(flags := WithNeutral(m.flags))) == Ordered(w, s, from, m)
  {
    NeutralIsOneBit(m.flags, FLAG_YAW_LOCK);
  }
}
