/**
 The server side of the MAVLink gimbal protocol as the gimbal manager plays it: messages with
 already decoded fields, the state they act on, and what one event does to that state.
 */
module GimbalProtocol {
  import opened Options
  import opened Numbers
  import opened Angles
  import opened GimbalAxis

  const CMD_DO_SET_ROI_LOCATION := 195
  const CMD_DO_SET_ROI_NONE := 197
  const CMD_REQUEST_MESSAGE := 512
  const CMD_DO_PITCHYAW := 1000
  const CMD_DO_CONFIGURE := 1001

  const ID_MANAGER_INFORMATION := 280
  const ID_DEVICE_INFORMATION := 283

  const ACCEPTED := 0
  const TEMPORARILY_REJECTED := 1
  const DENIED := 2
  const UNSUPPORTED := 3

  const COMP_ID_AUTOPILOT1 := 1
  const OWN_GIMBAL_DEVICE_ID := 1

  const FRAME_GLOBAL := 0
  const FRAME_GLOBAL_RELATIVE_ALT := 3
  const FRAME_GLOBAL_INT := 5
  const FRAME_GLOBAL_RELATIVE_ALT_INT := 6

  // Bit numbers of the flag masks 2, 16 and 64.
  const FLAG_NEUTRAL := 1
  const FLAG_YAW_LOCK := 4
  const FLAG_YAW_IN_EARTH_FRAME := 6

  datatype GlobalPosition = GlobalPosition(lat: real, lon: real, alt: real)
  datatype Quaternion = Quaternion(w: real, x: real, y: real, z: real)
  datatype PitchYaw = PitchYaw(pitch: real, yaw: real)

  /**
   What the manager takes from outside: its own address, the trigonometry it calls, and what
   this compiler makes of float-to-integer conversions that the language leaves undefined.
   Everything below holds for every choice.
   */
  datatype World = World(
    ownSysid: byte,
    ownCompid: byte,
    cos: real -> real,
    atan2: (real, real) -> real,
    hypot: (real, real) -> real,
    euler: Quaternion -> PitchYaw,
    degrees: real -> real,
    radians: real -> real,
    undefinedCast: real -> nat,
    undefinedRound: real -> int)

  /** System and component id of a sender, as the library delivers them (not yet truncated). */
  datatype Sender = Sender(sysid: nat, compid: nat)

  /** The parameters in which COMMAND_LONG and COMMAND_INT differ. */
  datatype Tail =
    | Long(param5: Option<real>, param6: Option<real>, param7: Option<real>)
    | Int(frame: nat, x: Option<int>, y: Option<int>, z: Option<real>)

  datatype Command = Command(
    targetSystem: nat, targetComponent: nat, command: nat,
    param1: Option<real>, param2: Option<real>, param3: Option<real>, param4: Option<real>,
    tail: Tail)
  {
    /** `optional_float(fields, param5_key)` */
    function Param5(): Option<real> {
      match tail
      case Long(p, _, _) => p
      case Int(_, x, _, _) => if x.Some? then Some(x.value as real) else None
    }

    /** `optional_float(fields, param7_key)` */
    function Param7(): Option<real> {
      match tail
      case Long(_, _, p) => p
      case Int(_, _, _, z) => z
    }
  }

  datatype AttitudeFields = AttitudeFields(
    targetSystem: nat, targetComponent: nat, deviceId: nat, flags: nat,
    q: Option<Quaternion>, rateY: Option<real>, rateZ: Option<real>)

  datatype PitchyawFields = PitchyawFields(
    targetSystem: nat, targetComponent: nat, deviceId: nat, flags: nat,
    pitch: Option<real>, yaw: Option<real>, pitchRate: Option<real>, yawRate: Option<real>)

  datatype Event =
    | CommandMessage(sender: Sender, command: Command)
    | SetAttitude(sender: Sender, attitude: AttitudeFields)
    | SetPitchyaw(sender: Sender, pitchyaw: PitchyawFields)
    | GlobalPositionInt(sender: Sender, lat: int, lon: int, alt: int, relativeAlt: int)
    | Attitude(sender: Sender, vehicleYaw: Option<real>)
    | Tick

  datatype Reply =
    | Ack(targetSystem: byte, targetComponent: byte, command: nat, result: nat)
    | ManagerInformation
    | DeviceInformation

  datatype Setpoints = Setpoints(pitch: Option<real>, yaw: Option<real>, pitchRate: Option<real>, yawRate: Option<real>)
  datatype Pose = Pose(pitch: real, yaw: real, pitchRate: real, yawRate: real)
  datatype Vehicle = Vehicle(position: Option<GlobalPosition>, relativeAlt: real, yaw: Option<real>)
  datatype Owners = Owners(primarySysid: byte, primaryCompid: byte, secondarySysid: byte, secondaryCompid: byte)

  datatype State = State(
    setpoints: Setpoints, pose: Pose, yawLock: bool, roi: Option<GlobalPosition>, vehicle: Vehicle, owners: Owners)

  const INITIAL := State(
    Setpoints(None, None, None, None), Pose(0.0, 0.0, 0.0, 0.0), false, None, Vehicle(None, 0.0, None),
    Owners(0, 0, 0, 0))

  // ---------------------------------------------------------------- conversions

  /** `static_cast<uint8_t>` */
  function Low8(x: int): byte {
    x % 256
  }

  /** `static_cast<unsigned>` of a float: towards zero; undefined unless the result fits. */
  function ToUnsigned(w: World, x: real): nat {
    if -1.0 < x < 4294967296.0 then (if x < 0.0 then 0 else x.Floor) else w.undefinedCast(x)
  }

  /** `std::lround` (half away from zero) stored into a 32-bit int. */
  function RoundToInt(w: World, x: real): int {
    var rounded :=
      if -9223372036854775808.0 <= x < 9223372036854775808.0 then
        (if x < 0.0 then -(0.5 - x).Floor else (x + 0.5).Floor)
      else w.undefinedRound(x);
    (rounded + 0x8000_0000) % 0x1_0000_0000 - 0x8000_0000
  }

  /** Whether bit number `bit` of `flags` is set. */
  predicate HasFlag(flags: nat, bit: nat) {
    if bit == 0 then flags % 2 == 1 else HasFlag(flags / 2, bit - 1)
  }

  /** The same flags with NEUTRAL set. */
  function WithNeutral(flags: nat): nat {
    if HasFlag(flags, FLAG_NEUTRAL) then flags else flags + 2
  }

  lemma SecondBit(flags: nat)
    ensures HasFlag(flags, FLAG_NEUTRAL) <==> flags / 2 % 2 == 1
  {
    assert HasFlag(flags, 1) == HasFlag(flags / 2, 0);
  }

  lemma PlusTwo(flags: nat)
    ensures (flags + 2) % 2 == flags % 2
    ensures flags / 2 % 2 == 0 ==> (flags + 2) / 2 / 2 == flags / 2 / 2
  {
    assert (flags + 2) / 2 == flags / 2 + 1;
  }

  /** Bit 1 has no say in any other bit. */
  lemma NeutralIsOneBit(flags: nat, bit: nat)
    requires bit != FLAG_NEUTRAL
    ensures HasFlag(WithNeutral(flags), bit) == HasFlag(flags, bit)
  {
    SecondBit(flags);
    PlusTwo(flags);
    if 2 <= bit {
      HasFlagAbove(flags, bit);
      HasFlagAbove(flags + 2, bit);
    }
  }

  lemma HasFlagAbove(flags: nat, bit: nat)
    requires 2 <= bit
    ensures HasFlag(flags, bit) == HasFlag(flags / 2 / 2, bit - 2)
  {
    assert HasFlag(flags, bit) == HasFlag(flags / 2, bit - 1);
  }

  function OptionalDegrees(w: World, x: Option<real>): Option<real> {
    if x.Some? then Some(w.degrees(x.value)) else None
  }

  function FromDegE7(x: int): real {
    x as real / 10000000.0
  }

  function FromMillimetres(x: int): real {
    x as real / 1000.0
  }

  // ---------------------------------------------------------------- who is spoken to, and who may speak

  predicate ForUs(w: World, targetSystem: nat, targetComponent: nat, deviceId: nat) {
    && (targetSystem == 0 || targetSystem == w.ownSysid)
    && (targetComponent == 0 || targetComponent == w.ownCompid)
    && (deviceId == 0 || deviceId == OWN_GIMBAL_DEVICE_ID)
  }

  /** Anyone while no one has taken control, else the primary alone. */
  predicate InControl(primarySysid: byte, primaryCompid: byte, sysid: byte, compid: byte) {
    (primarySysid == 0 && primaryCompid == 0) || (sysid == primarySysid && compid == primaryCompid)
  }

  predicate MaySteer(s: State, from: Sender) {
    InControl(s.owners.primarySysid, s.owners.primaryCompid, Low8(from.sysid), Low8(from.compid))
  }

  predicate FromAutopilot(w: World, from: Sender) {
    from.sysid == w.ownSysid && from.compid == COMP_ID_AUTOPILOT1
  }

  function DeviceId(w: World, param: Option<real>): nat {
    ToUnsigned(w, param.GetOr(0.0))
  }

  // ---------------------------------------------------------------- what one event does

  /** The new state, what is sent in answer, and whether the handler ended in an exception. */
  datatype Outcome = Outcome(state: State, replies: seq<Reply>, threw: bool)

  function Answer(s: State, from: Sender, command: nat, result: nat): Outcome {
    Outcome(s, [Ack(Low8(from.sysid), Low8(from.compid), command, result)], false)
  }

  /** A manual setpoint: it ends any region of interest and replaces all four setpoints. */
  function Steered(s: State, setpoints: Setpoints): State {
    s.(roi := None, setpoints := setpoints)
  }

  /** The vehicle-frame yaw meant by a setpoint with these flags. */
  function VehicleYaw(s: State, yaw: real, flags: nat): real {
    if HasFlag(flags, FLAG_YAW_IN_EARTH_FRAME) then Wrap180(yaw - s.vehicle.yaw.GetOr(0.0)) else yaw
  }

  /** One id after a DO_GIMBAL_MANAGER_CONFIGURE parameter with its special values. */
  function Configured(w: World, param: Option<real>, senderId: byte, id: byte): byte {
    if param.None? then id
    else
      var value := RoundToInt(w, param.value);
      if value == -2 then senderId
      else if value == -3 && id == senderId then 0
      else if 0 <= value <= 255 then value
      else id
  }

  function StepConfigure(w: World, s: State, from: Sender, c: Command): Outcome {
    if !ForUs(w, c.targetSystem, c.targetComponent, DeviceId(w, c.Param7()))
    then Answer(s, from, CMD_DO_CONFIGURE, DENIED)
    else
      var sys, comp := Low8(from.sysid), Low8(from.compid);
      var owners := Owners(Configured(w, c.param1, sys, s.owners.primarySysid),
                           Configured(w, c.param2, comp, s.owners.primaryCompid),
                           Configured(w, c.param3, sys, s.owners.secondarySysid),
                           Configured(w, c.param4, comp, s.owners.secondaryCompid));
      Answer(s.(owners := owners), from, CMD_DO_CONFIGURE, ACCEPTED)
  }

  function StepPitchyaw(w: World, s: State, from: Sender, c: Command): Outcome {
    if !ForUs(w, c.targetSystem, c.targetComponent, DeviceId(w, c.Param7())) || !MaySteer(s, from)
    then Answer(s, from, CMD_DO_PITCHYAW, DENIED)
    else
      var flags := c.Param5();
      var lock := if flags.Some? then HasFlag(ToUnsigned(w, flags.value), FLAG_YAW_LOCK) else s.yawLock;
      var steered := Steered(s, Setpoints(c.param1, c.param2, c.param3, c.param4));
      Answer(steered.(yawLock := lock), from, CMD_DO_PITCHYAW, ACCEPTED)
  }

  /** The location a ROI command means, AMSL; none if its frame is not supported. */
  function RoiOf(tail: Tail, vehicle: GlobalPosition, relativeAlt: real): Option<GlobalPosition> {
    match tail
    case Long(lat, lon, alt) => Some(GlobalPosition(lat.GetOr(0.0), lon.GetOr(0.0), alt.GetOr(0.0)))
    case Int(frame, x, y, z) =>
      var lat, lon, alt := FromDegE7(x.GetOr(0)), FromDegE7(y.GetOr(0)), z.GetOr(0.0);
      if frame == FRAME_GLOBAL || frame == FRAME_GLOBAL_INT then Some(GlobalPosition(lat, lon, alt))
      else if frame == FRAME_GLOBAL_RELATIVE_ALT || frame == FRAME_GLOBAL_RELATIVE_ALT_INT
      then Some(GlobalPosition(lat, lon, alt + (vehicle.alt - relativeAlt)))
      else None
  }

  function StepRoiLocation(w: World, s: State, from: Sender, c: Command): Outcome {
    if !ForUs(w, c.targetSystem, c.targetComponent, DeviceId(w, c.param1)) || !MaySteer(s, from)
    then Answer(s, from, CMD_DO_SET_ROI_LOCATION, DENIED)
    else if s.vehicle.position.None? then Answer(s, from, CMD_DO_SET_ROI_LOCATION, TEMPORARILY_REJECTED)
    else
      var roi := RoiOf(c.tail, s.vehicle.position.value, s.vehicle.relativeAlt);
      if roi.None? then Answer(s, from, CMD_DO_SET_ROI_LOCATION, DENIED)
      else Answer(s.(roi := roi, setpoints := s.setpoints.(pitchRate := None, yawRate := None)),
                  from, CMD_DO_SET_ROI_LOCATION, ACCEPTED)
  }

  function StepRoiNone(w: World, s: State, from: Sender, c: Command): Outcome {
    if !ForUs(w, c.targetSystem, c.targetComponent, DeviceId(w, c.param1)) || !MaySteer(s, from)
    then Answer(s, from, CMD_DO_SET_ROI_NONE, DENIED)
    else Answer(Steered(s, Setpoints(Some(0.0), Some(0.0), None, None)), from, CMD_DO_SET_ROI_NONE, ACCEPTED)
  }

  function StepRequestMessage(w: World, s: State, from: Sender, c: Command): Outcome {
    var requested := DeviceId(w, c.param1);
    if requested == ID_MANAGER_INFORMATION then
      Outcome(s, Answer(s, from, CMD_REQUEST_MESSAGE, ACCEPTED).replies + [ManagerInformation], false)
    else if requested == ID_DEVICE_INFORMATION then
      Outcome(s, Answer(s, from, CMD_REQUEST_MESSAGE, ACCEPTED).replies + [DeviceInformation], false)
    else if c.targetComponent == w.ownCompid then Answer(s, from, CMD_REQUEST_MESSAGE, UNSUPPORTED)
    else Outcome(s, [], false)
  }

  function StepCommand(w: World, s: State, from: Sender, c: Command): Outcome {
    if !ForUs(w, c.targetSystem, c.targetComponent, 0) then Outcome(s, [], false)
    else if c.command == CMD_REQUEST_MESSAGE then StepRequestMessage(w, s, from, c)
    else if c.command == CMD_DO_PITCHYAW then StepPitchyaw(w, s, from, c)
    else if c.command == CMD_DO_CONFIGURE then StepConfigure(w, s, from, c)
    else if c.command == CMD_DO_SET_ROI_LOCATION then StepRoiLocation(w, s, from, c)
    else if c.command == CMD_DO_SET_ROI_NONE then StepRoiNone(w, s, from, c)
    else if c.targetComponent == w.ownCompid then Answer(s, from, c.command, UNSUPPORTED)
    else Outcome(s, [], false)
  }

  function StepSetAttitude(w: World, s: State, from: Sender, m: AttitudeFields): State {
    if !ForUs(w, m.targetSystem, m.targetComponent, m.deviceId) || !MaySteer(s, from) then s
    else
      var pitch, yaw :=
        if m.q.Some? then Some(w.euler(m.q.value).pitch) else None,
        if m.q.Some? then Some(VehicleYaw(s, w.euler(m.q.value).yaw, m.flags)) else None;
      Steered(s, Setpoints(pitch, yaw, OptionalDegrees(w, m.rateY), OptionalDegrees(w, m.rateZ)))
        .(yawLock := HasFlag(m.flags, FLAG_YAW_LOCK))
  }

  /**
   The handler reads pitch and yaw as plain numbers for its log line, before anything else of an
   obeyed message: a null, which is how a NaN arrives, makes that throw.
   */
  function StepSetPitchyaw(w: World, s: State, from: Sender, m: PitchyawFields): Outcome {
    if !ForUs(w, m.targetSystem, m.targetComponent, m.deviceId) || !MaySteer(s, from) then Outcome(s, [], false)
    else if m.pitch.None? || m.yaw.None? then Outcome(s, [], true)
    else
      var yaw := VehicleYaw(s, w.degrees(m.yaw.value), m.flags);
      var setpoints := Setpoints(Some(w.degrees(m.pitch.value)), Some(yaw),
                                 OptionalDegrees(w, m.pitchRate), OptionalDegrees(w, m.yawRate));
      Outcome(Steered(s, setpoints).(yawLock := HasFlag(m.flags, FLAG_YAW_LOCK)), [], false)
  }

  function StepGlobalPosition(w: World, s: State, from: Sender, lat: int, lon: int, alt: int, relativeAlt: int): State {
    if !FromAutopilot(w, from) then s
    else
      var position := GlobalPosition(FromDegE7(lat), FromDegE7(lon), FromMillimetres(alt));
      s.(vehicle := s.vehicle.(position := Some(position), relativeAlt := FromMillimetres(relativeAlt)))
  }

  function StepAttitude(w: World, s: State, from: Sender, vehicleYaw: Option<real>): State {
    if !FromAutopilot(w, from) || vehicleYaw.None? then s
    else s.(vehicle := s.vehicle.(yaw := OptionalDegrees(w, vehicleYaw)))
  }

  // ---------------------------------------------------------------- one tick of the simulation

  const EARTH_RADIUS := 6371000.0

  /** Metres north and east from one position to another, on a flat earth. */
  function Offset(w: World, from: GlobalPosition, to: GlobalPosition): (real, real) {
    (w.radians(to.lat - from.lat) * EARTH_RADIUS,
     w.radians(to.lon - from.lon) * EARTH_RADIUS * w.cos(w.radians(from.lat)))
  }

  function Bearing(w: World, from: GlobalPosition, to: GlobalPosition): real {
    var (north, east) := Offset(w, from, to);
    w.degrees(w.atan2(east, north))
  }

  function Elevation(w: World, from: GlobalPosition, to: GlobalPosition): real {
    var (north, east) := Offset(w, from, to);
    w.degrees(w.atan2(to.alt - from.alt, w.hypot(north, east)))
  }

  /** Pitch and vehicle-frame yaw that point from the vehicle at a location. */
  function PointingAngles(w: World, vehicle: GlobalPosition, roi: GlobalPosition, vehicleYaw: real): PitchYaw {
    PitchYaw(Elevation(w, vehicle, roi), Wrap180(Bearing(w, vehicle, roi) - vehicleYaw))
  }

  /** The setpoints in force at the next tick: those of an active ROI, else the stored ones. */
  function Aim(w: World, s: State): (Option<real>, Option<real>) {
    if s.roi.Some? && s.vehicle.position.Some? then
      var angles := PointingAngles(w, s.vehicle.position.value, s.roi.value, s.vehicle.yaw.GetOr(0.0));
      (Some(angles.pitch), Some(angles.yaw))
    else (s.setpoints.pitch, s.setpoints.yaw)
  }

  function PitchMotion(w: World, s: State, dt: real): (m: Motion)
    requires 0.0 < dt
    ensures m.Slew? ==> 0.0 <= m.reach
  {
    MotionOf(Demand(Aim(w, s).0, s.setpoints.pitchRate), dt)
  }

  function YawMotion(w: World, s: State, dt: real): (m: Motion)
    requires 0.0 < dt
    ensures m.Slew? ==> 0.0 <= m.reach
  {
    MotionOf(Demand(Aim(w, s).1, s.setpoints.yawRate), dt)
  }

  function Simulated(w: World, s: State, dt: real): State
    requires 0.0 < dt
  {
    var pitch := NextAngle(PitchMotion(w, s, dt), PITCH_LIMITS, s.pose.pitch);
    var yaw := NextAngle(YawMotion(w, s, dt), YAW_LIMITS, s.pose.yaw);
    s.(setpoints := s.setpoints.(pitch := Aim(w, s).0, yaw := Aim(w, s).1),
       pose := Pose(pitch, yaw, ReportedRate(s.pose.pitch, pitch, dt), ReportedRate(s.pose.yaw, yaw, dt)))
  }

  // ---------------------------------------------------------------- all events together

  function Step(w: World, s: State, e: Event): Outcome {
    match e
    case CommandMessage(from, c) => StepCommand(w, s, from, c)
    case SetAttitude(from, m) => Outcome(StepSetAttitude(w, s, from, m), [], false)
    case SetPitchyaw(from, m) => StepSetPitchyaw(w, s, from, m)
    case GlobalPositionInt(from, lat, lon, alt, rel) =>
      Outcome(StepGlobalPosition(w, s, from, lat, lon, alt, rel), [], false)
    case Attitude(from, yaw) => Outcome(StepAttitude(w, s, from, yaw), [], false)
    case Tick => Outcome(Simulated(w, s, DT), [], false)
  }
}
