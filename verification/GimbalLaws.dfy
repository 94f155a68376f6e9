/**
 What messages to the gimbal manager bring about, from their fields to where the axes stand any
 number of ticks later and what is answered, told in the numbers of the protocol and without the
 functions that the handlers are made of.
 */
module GimbalLaws {
  import opened Options
  import opened Numbers
  import opened Angles
  import opened GimbalAxis
  import opened GimbalProtocol
  import opened GimbalRuns

  // ---------------------------------------------------------------- the conditions

  /** Addressed to this component or to all, and to its gimbal or to all. */
  predicate Here(w: World, targetSystem: nat, targetComponent: nat, deviceId: nat) {
    targetSystem in {0, w.ownSysid} && targetComponent in {0, w.ownCompid} && deviceId in {0, 1}
  }

  /** Nobody is in control, or the sender is. */
  predicate Listens(s: State, from: Sender) {
    || (s.owners.primarySysid == 0 && s.owners.primaryCompid == 0)
    || (s.owners.primarySysid == from.sysid % 256 && s.owners.primaryCompid == from.compid % 256)
  }

  /** A parameter that holds this whole number, or leaves it at zero. */
  predicate Names(param: Option<real>, id: nat) {
    id < 0x1_0000_0000 && (param == Some(id as real) || (param == None && id == 0))
  }

  /** The whole number in param7 or z. */
  predicate NamesLast(c: Command, id: nat) {
    match c.tail
    case Long(_, _, p7) => Names(p7, id)
    case Int(_, _, _, z) => Names(z, id)
  }

  /** The flags in param5 or x, if there are any. */
  predicate HasFlags(c: Command, flags: Option<nat>) {
    && (flags.Some? ==> flags.value < 0x1_0000_0000)
    && match c.tail
       case Long(p5, _, _) => p5 == if flags.Some? then Some(flags.value as real) else None
       case Int(_, x, _, _) => x == if flags.Some? then Some(flags.value) else None
  }

  function Answered(from: Sender, command: nat, result: nat): seq<Reply> {
    [Ack(from.sysid % 256, from.compid % 256, command, result)]
  }

  /** What the flag masks 16 (lock) and 64 (earth frame) say. */
  predicate MaskSet(flags: nat, mask: nat)
    requires 0 < mask
  {
    flags / mask % 2 == 1
  }

  lemma MasksAreBits(flags: nat)
    ensures HasFlag(flags, FLAG_YAW_LOCK) <==> MaskSet(flags, 16)
    ensures HasFlag(flags, FLAG_YAW_IN_EARTH_FRAME) <==> MaskSet(flags, 64)
    ensures HasFlag(flags, FLAG_NEUTRAL) <==> MaskSet(flags, 2)
  {
    HasFlagAbove(flags, 6);
    HasFlagAbove(flags, 4);
    HasFlagAbove(flags / 4, 4);
    HasFlagAbove(flags / 4, 2);
    HasFlagAbove(flags / 16, 2);
    SecondBit(flags);
    assert flags / 2 / 2 == flags / 4 && flags / 4 / 2 / 2 == flags / 16 && flags / 16 / 2 / 2 == flags / 64;
    assert HasFlag(flags / 16, 0) == (flags / 16 % 2 == 1);
    assert HasFlag(flags / 64, 0) == (flags / 64 % 2 == 1);
  }

  // ---------------------------------------------------------------- the outcome

  /** From here on, while only ticks arrive, the axes travel to these setpoints at these rates. */
  ghost predicate Travels(
    w: World, s: State, pitch: Option<real>, pitchRate: Option<real>, yaw: Option<real>, yawRate: Option<real>)
  {
    forall n: nat :: && AfterTicks(w, s, n).pose.pitch == Traveled(n, pitch, pitchRate, -90.0, 30.0, s.pose.pitch)
                && AfterTicks(w, s, n).pose.yaw == Traveled(n, yaw, yawRate, -160.0, 160.0, s.pose.yaw)
  }

  /** What no setpoint touches, and the end of any region of interest. */
  predicate Handled(s: State, t: State) {
    t.roi == None && t.pose == s.pose && t.vehicle == s.vehicle && t.owners == s.owners
  }

  lemma SetpointsTravel(w: World, s: State)
    requires Sound(s) && s.roi == None
    ensures Travels(w, s, s.setpoints.pitch, s.setpoints.pitchRate, s.setpoints.yaw, s.setpoints.yawRate)
  {
    forall n: nat
      ensures AfterTicks(w, s, n).pose.pitch
              == Traveled(n, s.setpoints.pitch, s.setpoints.pitchRate, -90.0, 30.0, s.pose.pitch)
      ensures AfterTicks(w, s, n).pose.yaw
              == Traveled(n, s.setpoints.yaw, s.setpoints.yawRate, -160.0, 160.0, s.pose.yaw)
    {
      TicksFollowOneAim(w, s, n);
      TicksTravel(n, Demand(s.setpoints.pitch, s.setpoints.pitchRate), PITCH_LIMITS, s.pose.pitch);
      TicksTravel(n, Demand(s.setpoints.yaw, s.setpoints.yawRate), YAW_LIMITS, s.pose.yaw);
    }
  }

  lemma AddressIsHere(w: World, targetSystem: nat, targetComponent: nat, deviceId: nat)
    ensures ForUs(w, targetSystem, targetComponent, deviceId) <==> Here(w, targetSystem, targetComponent, deviceId)
  {
  }

  lemma SteeringIsListening(s: State, from: Sender)
    ensures MaySteer(s, from) <==> Listens(s, from)
  {
  }

  lemma NamedIsRead(w: World, param: Option<real>, id: nat)
    requires Names(param, id)
    ensures DeviceId(w, param) == id
  {
  }

  // ---------------------------------------------------------------- the commands

  /** DO_GIMBAL_MANAGER_PITCHYAW: degrees and degrees a second, whoever sends it while nobody is in control. */
  lemma PitchyawCommandTravels(w: World, s: State, from: Sender, c: Command, flags: Option<nat>, id: nat)
    requires Sound(s) && c.command == 1000 && HasFlags(c, flags) && NamesLast(c, id)
    ensures var o := Step(w, s, CommandMessage(from, c));
            if !Here(w, c.targetSystem, c.targetComponent, 0) then o == Outcome(s, [], false)
            else if !Here(w, c.targetSystem, c.targetComponent, id) || !Listens(s, from)
            then o == Outcome(s, Answered(from, 1000, 2), false)
            else
              && o.replies == Answered(from, 1000, 0) && !o.threw && Handled(s, o.state)
              && o.state.yawLock == (if flags.Some? then MaskSet(flags.value, 16) else s.yawLock)
              && Travels(w, o.state, c.param1, c.param3, c.param2, c.param4)
  {
    AddressIsHere(w, c.targetSystem, c.targetComponent, 0);
    AddressIsHere(w, c.targetSystem, c.targetComponent, id);
    SteeringIsListening(s, from);
    NamedIsRead(w, c.Param7(), id);
    if flags.Some? {
      MasksAreBits(flags.value);
      CastOfWhole(w, flags.value);
    }
    var t := Step(w, s, CommandMessage(from, c)).state;
    if t.roi == None {
      EventsKeepSound(w, s, CommandMessage(from, c));
      SetpointsTravel(w, t);
    }
  }

  /** DO_SET_ROI_NONE: back to the middle at the default rate. */
  lemma RoiNoneCentres(w: World, s: State, from: Sender, c: Command, id: nat)
    requires Sound(s) && c.command == 197 && Names(c.param1, id)
    ensures var o := Step(w, s, CommandMessage(from, c));
            if !Here(w, c.targetSystem, c.targetComponent, 0) then o == Outcome(s, [], false)
            else if !Here(w, c.targetSystem, c.targetComponent, id) || !Listens(s, from)
            then o == Outcome(s, Answered(from, 197, 2), false)
            else
              && o.replies == Answered(from, 197, 0) && !o.threw && Handled(s, o.state)
              && o.state.yawLock == s.yawLock
              && Travels(w, o.state, Some(0.0), None, Some(0.0), None)
  {
    AddressIsHere(w, c.targetSystem, c.targetComponent, 0);
    AddressIsHere(w, c.targetSystem, c.targetComponent, id);
    SteeringIsListening(s, from);
    NamedIsRead(w, c.param1, id);
    var t := Step(w, s, CommandMessage(from, c)).state;
    if t.roi == None {
      EventsKeepSound(w, s, CommandMessage(from, c));
      SetpointsTravel(w, t);
    }
  }

  /** DO_SET_ROI_LOCATION: who is refused, in which order and how. */
  lemma RoiIsAnswered(w: World, s: State, from: Sender, c: Command, id: nat)
    requires c.command == 195 && Names(c.param1, id)
    ensures var o := Step(w, s, CommandMessage(from, c));
            if !Here(w, c.targetSystem, c.targetComponent, 0) then o == Outcome(s, [], false)
            else if !Here(w, c.targetSystem, c.targetComponent, id) || !Listens(s, from)
            then o == Outcome(s, Answered(from, 195, 2), false)
            else if s.vehicle.position == None then o == Outcome(s, Answered(from, 195, 1), false)
            else if c.tail.Int? && c.tail.frame !in {0, 3, 5, 6} then o == Outcome(s, Answered(from, 195, 2), false)
            else
              && o.replies == Answered(from, 195, 0) && !o.threw && o.state.roi.Some?
              && o.state.pose == s.pose && o.state.vehicle == s.vehicle && o.state.owners == s.owners
              && o.state.yawLock == s.yawLock
  {
    AddressIsHere(w, c.targetSystem, c.targetComponent, 0);
    AddressIsHere(w, c.targetSystem, c.targetComponent, id);
    SteeringIsListening(s, from);
    NamedIsRead(w, c.param1, id);
  }

  /** What the own autopilot last told: 1e-7 degrees, millimetres, radians. */
  datatype Telemetry = Telemetry(lat: int, lon: int, alt: int, relativeAlt: int, heading: real)

  function Told(w: World, s: State, m: Telemetry): State {
    var autopilot := Sender(w.ownSysid, 1);
    var t := Step(w, s, GlobalPositionInt(autopilot, m.lat, m.lon, m.alt, m.relativeAlt)).state;
    Step(w, t, Attitude(autopilot, Some(m.heading))).state
  }

  /** Position and heading are those the autopilot told, and nothing else is touched; nobody else is believed. */
  lemma TelemetryIsTheAutopilots(w: World, s: State, m: Telemetry, from: Sender, heading: Option<real>)
    ensures var t := Told(w, s, m);
            && t == s.(vehicle := t.vehicle)
            && t.vehicle == Vehicle(
                 Some(GlobalPosition(m.lat as real / 10000000.0, m.lon as real / 10000000.0, m.alt as real / 1000.0)),
                 m.relativeAlt as real / 1000.0, Some(w.degrees(m.heading)))
    ensures from != Sender(w.ownSysid, 1) ==>
              && Step(w, s, GlobalPositionInt(from, m.lat, m.lon, m.alt, m.relativeAlt)) == Outcome(s, [], false)
              && Step(w, s, Attitude(from, heading)) == Outcome(s, [], false)
    ensures Step(w, s, Attitude(from, None)) == Outcome(s, [], false)
  {
  }

  /** Metres to the north and to the east of a position, on a flat earth. */
  function North(w: World, here: GlobalPosition, there: GlobalPosition): real {
    w.radians(there.lat - here.lat) * 6371000.0
  }

  function East(w: World, here: GlobalPosition, there: GlobalPosition): real {
    w.radians(there.lon - here.lon) * 6371000.0 * w.cos(w.radians(here.lat))
  }

  /** The angle above the horizon, in degrees. */
  function Up(w: World, here: GlobalPosition, there: GlobalPosition): real {
    w.degrees(w.atan2(there.alt - here.alt, w.hypot(North(w, here, there), East(w, here, there))))
  }

  /** The compass bearing, in degrees. */
  function Compass(w: World, here: GlobalPosition, there: GlobalPosition): real {
    w.degrees(w.atan2(East(w, here, there), North(w, here, there)))
  }

  lemma OffsetIsSpelledOut(w: World, here: GlobalPosition, there: GlobalPosition)
    ensures Offset(w, here, there).0 == North(w, here, there)
    ensures Offset(w, here, there).1 == East(w, here, there)
  {
  }

  lemma AnglesAreSpelledOut(w: World, here: GlobalPosition, there: GlobalPosition)
    ensures Elevation(w, here, there) == Up(w, here, there)
    ensures Bearing(w, here, there) == Compass(w, here, there)
  {
    OffsetIsSpelledOut(w, here, there);
  }

  /**
   An accepted DO_SET_ROI_LOCATION: from where the autopilot says the vehicle is, the axes turn to
   the location at the default rate, the yaw less the vehicle's heading.  (The COMMAND_INT forms
   mean a LONG form each, as `IntMeansLong` says.)
   */
  lemma RoiIsTracked(w: World, s0: State, m: Telemetry, from: Sender, c: Command, there: GlobalPosition)
    requires Sound(s0) && Listens(s0, from) && c.command == 195 && Names(c.param1, 0)
    requires Here(w, c.targetSystem, c.targetComponent, 0)
    requires c.tail == Long(Some(there.lat), Some(there.lon), Some(there.alt))
    ensures var s := Told(w, s0, m);
            var o := Step(w, s, CommandMessage(from, c));
            var here := GlobalPosition(m.lat as real / 10000000.0, m.lon as real / 10000000.0, m.alt as real / 1000.0);
            var pitch, yaw := Up(w, here, there), Wrap180(Compass(w, here, there) - w.degrees(m.heading));
            && o.replies == Answered(from, 195, 0)
            && Travels(w, o.state, Some(pitch), None, Some(yaw), None)
            && AfterTicks(w, o.state, 1).setpoints == Setpoints(Some(pitch), Some(yaw), None, None)
  {
    TelemetryIsTheAutopilots(w, s0, m, from, None);
    var s := Told(w, s0, m);
    RoiIsAnswered(w, s, from, c, 0);
    var t := Step(w, s, CommandMessage(from, c)).state;
    RoiIsTaken(w, s, from, c, there);
    RoiTravels(w, t);
  }

  lemma RoiIsTaken(w: World, s: State, from: Sender, c: Command, there: GlobalPosition)
    requires Sound(s) && Listens(s, from) && c.command == 195 && Names(c.param1, 0) && s.vehicle.position.Some?
    requires Here(w, c.targetSystem, c.targetComponent, 0)
    requires c.tail == Long(Some(there.lat), Some(there.lon), Some(there.alt))
    ensures var t := Step(w, s, CommandMessage(from, c)).state;
            t.roi == Some(there) && t.setpoints.pitchRate == None && t.setpoints.yawRate == None && Sound(t)
  {
    AddressIsHere(w, c.targetSystem, c.targetComponent, 0);
    SteeringIsListening(s, from);
    NamedIsRead(w, c.param1, 0);
  }

  lemma RoiTravels(w: World, s: State)
    requires s.roi.Some? && s.vehicle.position.Some? && s.setpoints.pitchRate == None && s.setpoints.yawRate == None
    requires Sound(s)
    ensures var here, there := s.vehicle.position.value, s.roi.value;
            var pitch, yaw := Up(w, here, there), Wrap180(Compass(w, here, there) - s.vehicle.yaw.GetOr(0.0));
            && Travels(w, s, Some(pitch), None, Some(yaw), None)
            && AfterTicks(w, s, 1).setpoints == Setpoints(Some(pitch), Some(yaw), None, None)
  {
    var (pitch, yaw) := Aim(w, s);
    AnglesAreSpelledOut(w, s.vehicle.position.value, s.roi.value);
    forall n: nat
      ensures AfterTicks(w, s, n).pose.pitch == Traveled(n, pitch, None, -90.0, 30.0, s.pose.pitch)
      ensures AfterTicks(w, s, n).pose.yaw == Traveled(n, yaw, None, -160.0, 160.0, s.pose.yaw)
    {
      TicksFollowOneAim(w, s, n);
      TicksTravel(n, Demand(pitch, None), PITCH_LIMITS, s.pose.pitch);
      TicksTravel(n, Demand(yaw, None), YAW_LIMITS, s.pose.yaw);
    }
    assert AfterTicks(w, s, 1) == Simulated(w, AfterTicks(w, s, 0), DT);
  }

  // ---------------------------------------------------------------- the setpoint messages

  /** The yaw that a message with these flags means for a vehicle with this heading. */
  function Meant(yaw: real, flags: nat, heading: Option<real>): real {
    if MaskSet(flags, 64) then Wrap180(yaw - (match heading case Some(h) => h case None => 0.0)) else yaw
  }

  function InDegrees(w: World, x: Option<real>): Option<real> {
    match x case Some(radians) => Some(w.degrees(radians)) case None => None
  }

  /** GIMBAL_MANAGER_SET_ATTITUDE: the angles of the quaternion, y for pitch and z for yaw rates. */
  lemma SetAttitudeTravels(w: World, s: State, from: Sender, m: AttitudeFields)
    requires Sound(s)
    ensures var o := Step(w, s, SetAttitude(from, m));
            if !Here(w, m.targetSystem, m.targetComponent, m.deviceId) || !Listens(s, from)
            then o == Outcome(s, [], false)
            else
              && o.replies == [] && !o.threw && Handled(s, o.state) && o.state.yawLock == MaskSet(m.flags, 16)
              && match m.q
                 case None => Travels(w, o.state, None, InDegrees(w, m.rateY), None, InDegrees(w, m.rateZ))
                 case Some(q) =>
                   Travels(w, o.state, Some(w.euler(q).pitch), InDegrees(w, m.rateY),
                           Some(Meant(w.euler(q).yaw, m.flags, s.vehicle.yaw)), InDegrees(w, m.rateZ))
  {
    AddressIsHere(w, m.targetSystem, m.targetComponent, m.deviceId);
    SteeringIsListening(s, from);
    MasksAreBits(m.flags);
    var t := Step(w, s, SetAttitude(from, m)).state;
    if t.roi == None {
      EventsKeepSound(w, s, SetAttitude(from, m));
      SetpointsTravel(w, t);
    }
  }

  /** GIMBAL_MANAGER_SET_PITCHYAW with both angles; without one it throws. */
  lemma SetPitchyawTravels(w: World, s: State, from: Sender, m: PitchyawFields)
    requires Sound(s)
    ensures var o := Step(w, s, SetPitchyaw(from, m));
            if !Here(w, m.targetSystem, m.targetComponent, m.deviceId) || !Listens(s, from)
            then o == Outcome(s, [], false)
            else if m.pitch == None || m.yaw == None then o == Outcome(s, [], true)
            else
              && o.replies == [] && !o.threw && Handled(s, o.state) && o.state.yawLock == MaskSet(m.flags, 16)
              && Travels(w, o.state, Some(w.degrees(m.pitch.value)), InDegrees(w, m.pitchRate),
                         Some(Meant(w.degrees(m.yaw.value), m.flags, s.vehicle.yaw)), InDegrees(w, m.yawRate))
  {
    AddressIsHere(w, m.targetSystem, m.targetComponent, m.deviceId);
    SteeringIsListening(s, from);
    MasksAreBits(m.flags);
    var t := Step(w, s, SetPitchyaw(from, m)).state;
    if t.roi == None {
      EventsKeepSound(w, s, SetPitchyaw(from, m));
      SetpointsTravel(w, t);
    }
  }

  // ---------------------------------------------------------------- who is in control, and what is asked

  /** A whole number in a parameter that names an id. */
  predicate Whole(param: Option<real>, k: Option<int>) {
    match k
    case None => param == None
    case Some(n) => param == Some(n as real) && -0x8000_0000 <= n < 0x8000_0000
  }

  /** -1 and nothing keep an id, -2 takes it, -3 gives up one's own, 0 to 255 sets it, all else is ignored. */
  function Assigned(k: Option<int>, own: byte, id: byte): byte {
    match k
    case None => id
    case Some(n) =>
      if n == -2 then own
      else if n == -3 then (if id == own then 0 else id)
      else if 0 <= n < 256 then n
      else id
  }

  lemma WholeIsConfigured(w: World, param: Option<real>, k: Option<int>, own: byte, id: byte)
    requires Whole(param, k)
    ensures Configured(w, param, own, id) == Assigned(k, own, id)
  {
    if k.Some? {
      RoundingWhole(w, k.value);
    }
  }

  /** DO_GIMBAL_MANAGER_CONFIGURE: params 1 to 4 for primary system and component, then the secondary ones. */
  lemma ConfigureAssigns(
    w: World, s: State, from: Sender, c: Command, a: Option<int>, b: Option<int>, d: Option<int>, e: Option<int>,
    id: nat)
    requires c.command == 1001 && NamesLast(c, id)
    requires Whole(c.param1, a) && Whole(c.param2, b) && Whole(c.param3, d) && Whole(c.param4, e)
    ensures var o := Step(w, s, CommandMessage(from, c));
            var sys, comp := from.sysid % 256, from.compid % 256;
            if !Here(w, c.targetSystem, c.targetComponent, 0) then o == Outcome(s, [], false)
            else if !Here(w, c.targetSystem, c.targetComponent, id)
            then o == Outcome(s, Answered(from, 1001, 2), false)
            else
              o == Outcome(s.(owners := Owners(Assigned(a, sys, s.owners.primarySysid),
                                               Assigned(b, comp, s.owners.primaryCompid),
                                               Assigned(d, sys, s.owners.secondarySysid),
                                               Assigned(e, comp, s.owners.secondaryCompid))),
                           Answered(from, 1001, 0), false)
  {
    AddressIsHere(w, c.targetSystem, c.targetComponent, 0);
    AddressIsHere(w, c.targetSystem, c.targetComponent, id);
    NamedIsRead(w, c.Param7(), id);
    WholeIsConfigured(w, c.param1, a, Low8(from.sysid), s.owners.primarySysid);
    WholeIsConfigured(w, c.param2, b, Low8(from.compid), s.owners.primaryCompid);
    WholeIsConfigured(w, c.param3, d, Low8(from.sysid), s.owners.secondarySysid);
    WholeIsConfigured(w, c.param4, e, Low8(from.compid), s.owners.secondaryCompid);
  }

  /** What is sent to whoever asks for message 280 or 283, and what to all other commands and requests. */
  lemma RequestsAreAnswered(w: World, s: State, from: Sender, c: Command, id: nat)
    requires Names(c.param1, id) && c.command !in {195, 197, 1000, 1001}
    ensures Step(w, s, CommandMessage(from, c))
            == Outcome(s,
                 if !Here(w, c.targetSystem, c.targetComponent, 0) then []
                 else if c.command == 512 && id == 280 then Answered(from, 512, 0) + [ManagerInformation]
                 else if c.command == 512 && id == 283 then Answered(from, 512, 0) + [DeviceInformation]
                 else if c.targetComponent == w.ownCompid then Answered(from, c.command, 3)
                 else [],
                 false)
  {
    AddressIsHere(w, c.targetSystem, c.targetComponent, 0);
    NamedIsRead(w, c.param1, id);
  }

  /** At first the gimbal rests in the middle, follows the vehicle, knows nothing of it, and nobody is in control. */
  lemma StartsAtRest(w: World)
    ensures !INITIAL.yawLock && INITIAL.pose == Pose(0.0, 0.0, 0.0, 0.0) && INITIAL.roi == None
    ensures INITIAL.vehicle.position == None && INITIAL.vehicle.yaw == None && INITIAL.owners == Owners(0, 0, 0, 0)
    ensures Travels(w, INITIAL, None, None, None, None)
    ensures forall n: nat :: AfterTicks(w, INITIAL, n).pose.pitch == 0.0 && AfterTicks(w, INITIAL, n).pose.yaw == 0.0
  {
    SetpointsTravel(w, INITIAL);
    forall n: nat
      ensures AfterTicks(w, INITIAL, n).pose.pitch == 0.0 && AfterTicks(w, INITIAL, n).pose.yaw == 0.0
    {
      TimesIsProduct(n, 0.0);
      assert Traveled(n, None, None, -90.0, 30.0, 0.0) == 0.0 && Traveled(n, None, None, -160.0, 160.0, 0.0) == 0.0;
    }
  }

  // ---------------------------------------------------------------- conversions

  /** Whole parameters are read as they are. */
  lemma RoundingWhole(w: World, n: int)
    requires -0x8000_0000 <= n < 0x8000_0000
    ensures RoundToInt(w, n as real) == n
  {
  }

  /** Other parameters go to the nearest whole number, halves away from zero. */
  lemma RoundingIsNearest(w: World, x: real)
    requires -2147483648.0 <= x <= 2147483647.0
    ensures var r := RoundToInt(w, x) as real;
            && -0.5 <= r - x <= 0.5
            && (r - x == 0.5 ==> 0.0 < x) && (r - x == -0.5 ==> x < 0.0)
  {
  }

  /** A float read as a device id or as flags is cut towards zero. */
  lemma CastsCut(w: World, x: real)
    requires -1.0 < x < 4294967296.0
    ensures var n := ToUnsigned(w, x) as real; if x < 0.0 then n == 0.0 else n <= x < n + 1.0
  {
  }
}
