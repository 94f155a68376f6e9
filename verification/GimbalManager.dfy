/**
 The gimbal manager as the program writes it: an object whose handlers run under one mutex and
 update its fields.  Every method is proved against the step functions of `GimbalProtocol`.
 */
module GimbalManager {
  import opened Options
  import opened Numbers
  import opened Angles
  import opened GimbalAxis
  import opened GimbalProtocol

  method PointingAnglesToRoi(w: World, vehicle: GlobalPosition, roi: GlobalPosition, vehicleYaw: real)
    returns (angles: PitchYaw)
    ensures angles == PointingAngles(w, vehicle, roi, vehicleYaw)
  {
    var north := w.radians(roi.lat - vehicle.lat) * EARTH_RADIUS;
    var east := w.radians(roi.lon - vehicle.lon) * EARTH_RADIUS * w.cos(w.radians(vehicle.lat));
    assert north == Offset(w, vehicle, roi).0;
    assert east == Offset(w, vehicle, roi).1;
    var distance := w.hypot(north, east);
    var bearing := w.degrees(w.atan2(east, north));
    var pitch := w.degrees(w.atan2(roi.alt - vehicle.alt, distance));
    assert bearing == Bearing(w, vehicle, roi) && pitch == Elevation(w, vehicle, roi);
    var yaw := WrapDegrees(bearing - vehicleYaw);
    angles := PitchYaw(pitch, yaw);
  }

  method ApplyConfigureId(w: World, param: Option<real>, senderId: byte, id: byte) returns (id': byte)
    ensures id' == Configured(w, param, senderId, id)
  {
    id' := id;
    if param.None? {
      return;
    }
    var value := RoundToInt(w, param.value);
    if value == -1 {
    } else if value == -2 {
      id' := senderId;
    } else if value == -3 {
      if id' == senderId {
        id' := 0;
      }
    } else if 0 <= value <= 255 {
      id' := value;
    }
  }

  class GimbalManager {
    const w: World
    var setpoints: Setpoints
    var pose: Pose
    var yawLock: bool
    var roi: Option<GlobalPosition>
    var vehicle: Vehicle
    var owners: Owners

    /** Everything sent in answer to commands, oldest first. */
    var sent: seq<Reply>

    function Now(): State
      reads this
    {
      State(setpoints, pose, yawLock, roi, vehicle, owners)
    }

    constructor (w: World)
      ensures this.w == w && Now() == INITIAL && sent == []
    {
      this.w := w;
      setpoints := Setpoints(None, None, None, None);
      pose := Pose(0.0, 0.0, 0.0, 0.0);
      yawLock := false;
      roi := None;
      vehicle := Vehicle(None, 0.0, None);
      owners := Owners(0, 0, 0, 0);
      sent := [];
    }

    method SendAck(from: Sender, command: nat, result: nat)
      modifies `sent
      ensures sent == old(sent) + [Ack(Low8(from.sysid), Low8(from.compid), command, result)]
    {
      sent := sent + [Ack(Low8(from.sysid), Low8(from.compid), command, result)];
    }

    method HandleCommand(from: Sender, c: Command)
      modifies this
      ensures var o := StepCommand(w, old(Now()), from, c); Now() == o.state && sent == old(sent) + o.replies
    {
      if !ForUs(w, c.targetSystem, c.targetComponent, 0) {
        return;
      }
      if c.command == CMD_REQUEST_MESSAGE {
        HandleRequestMessage(from, c);
      } else if c.command == CMD_DO_PITCHYAW {
        HandleDoPitchyaw(from, c);
      } else if c.command == CMD_DO_CONFIGURE {
        HandleDoConfigure(from, c);
      } else if c.command == CMD_DO_SET_ROI_LOCATION {
        HandleDoSetRoiLocation(from, c);
      } else if c.command == CMD_DO_SET_ROI_NONE {
        HandleDoSetRoiNone(from, c);
      } else if c.targetComponent == w.ownCompid {
        SendAck(from, c.command, UNSUPPORTED);
      }
    }

    method HandleRequestMessage(from: Sender, c: Command)
      modifies this
      ensures var o := StepRequestMessage(w, old(Now()), from, c); Now() == o.state && sent == old(sent) + o.replies
    {
      var requestedId := ToUnsigned(w, c.param1.GetOr(0.0));
      if requestedId == ID_MANAGER_INFORMATION {
        SendAck(from, CMD_REQUEST_MESSAGE, ACCEPTED);
        sent := sent + [ManagerInformation];
      } else if requestedId == ID_DEVICE_INFORMATION {
        SendAck(from, CMD_REQUEST_MESSAGE, ACCEPTED);
        sent := sent + [DeviceInformation];
      } else if c.targetComponent == w.ownCompid {
        SendAck(from, CMD_REQUEST_MESSAGE, UNSUPPORTED);
      }
    }

    method HandleDoPitchyaw(from: Sender, c: Command)
      modifies this
      ensures var o := StepPitchyaw(w, old(Now()), from, c); Now() == o.state && sent == old(sent) + o.replies
    {
      var deviceId := ToUnsigned(w, c.Param7().GetOr(0.0));
      if !ForUs(w, c.targetSystem, c.targetComponent, deviceId)
         || !InControl(owners.primarySysid, owners.primaryCompid, Low8(from.sysid), Low8(from.compid)) {
        SendAck(from, CMD_DO_PITCHYAW, DENIED);
        return;
      }
      var flags := c.Param5();
      if flags.Some? {
        ApplyFlags(ToUnsigned(w, flags.value));
      }
      roi := None;
      setpoints := setpoints.(pitch := c.param1);
      setpoints := setpoints.(yaw := c.param2);
      setpoints := setpoints.(pitchRate := c.param3);
      setpoints := setpoints.(yawRate := c.param4);
      SendAck(from, CMD_DO_PITCHYAW, ACCEPTED);
    }

    method HandleDoConfigure(from: Sender, c: Command)
      modifies this
      ensures var o := StepConfigure(w, old(Now()), from, c); Now() == o.state && sent == old(sent) + o.replies
    {
      var deviceId := ToUnsigned(w, c.Param7().GetOr(0.0));
      if !ForUs(w, c.targetSystem, c.targetComponent, deviceId) {
        SendAck(from, CMD_DO_CONFIGURE, DENIED);
        return;
      }
      var sys, comp := Low8(from.sysid), Low8(from.compid);
      var primarySysid := ApplyConfigureId(w, c.param1, sys, owners.primarySysid);
      owners := owners.(primarySysid := primarySysid);
      var primaryCompid := ApplyConfigureId(w, c.param2, comp, owners.primaryCompid);
      owners := owners.(primaryCompid := primaryCompid);
      var secondarySysid := ApplyConfigureId(w, c.param3, sys, owners.secondarySysid);
      owners := owners.(secondarySysid := secondarySysid);
      var secondaryCompid := ApplyConfigureId(w, c.param4, comp, owners.secondaryCompid);
      owners := owners.(secondaryCompid := secondaryCompid);
      SendAck(from, CMD_DO_CONFIGURE, ACCEPTED);
    }

    method HandleDoSetRoiLocation(from: Sender, c: Command)
      modifies this
      ensures var o := StepRoiLocation(w, old(Now()), from, c); Now() == o.state && sent == old(sent) + o.replies
    {
      var deviceId := ToUnsigned(w, c.param1.GetOr(0.0));
      if !ForUs(w, c.targetSystem, c.targetComponent, deviceId)
         || !InControl(owners.primarySysid, owners.primaryCompid, Low8(from.sysid), Low8(from.compid)) {
        SendAck(from, CMD_DO_SET_ROI_LOCATION, DENIED);
        return;
      }
      if vehicle.position.None? {
        SendAck(from, CMD_DO_SET_ROI_LOCATION, TEMPORARILY_REJECTED);
        return;
      }
      var lat, lon, alt;
      match c.tail {
        case Int(frame, x, y, z) =>
          lat, lon, alt := FromDegE7(x.GetOr(0)), FromDegE7(y.GetOr(0)), z.GetOr(0.0);
          if frame == FRAME_GLOBAL || frame == FRAME_GLOBAL_INT {
          } else if frame == FRAME_GLOBAL_RELATIVE_ALT || frame == FRAME_GLOBAL_RELATIVE_ALT_INT {
            alt := alt + (vehicle.position.value.alt - vehicle.relativeAlt);
          } else {
            SendAck(from, CMD_DO_SET_ROI_LOCATION, DENIED);
            return;
          }
        case Long(param5, param6, param7) =>
          lat, lon, alt := param5.GetOr(0.0), param6.GetOr(0.0), param7.GetOr(0.0);
      }
      roi := Some(GlobalPosition(lat, lon, alt));
      setpoints := setpoints.(pitchRate := None);
      setpoints := setpoints.(yawRate := None);
      SendAck(from, CMD_DO_SET_ROI_LOCATION, ACCEPTED);
    }

    method HandleDoSetRoiNone(from: Sender, c: Command)
      modifies this
      ensures var o := StepRoiNone(w, old(Now()), from, c); Now() == o.state && sent == old(sent) + o.replies
    {
      var deviceId := ToUnsigned(w, c.param1.GetOr(0.0));
      if !ForUs(w, c.targetSystem, c.targetComponent, deviceId)
         || !InControl(owners.primarySysid, owners.primaryCompid, Low8(from.sysid), Low8(from.compid)) {
        SendAck(from, CMD_DO_SET_ROI_NONE, DENIED);
        return;
      }
      roi := None;
      setpoints := setpoints.(pitch := Some(0.0));
      setpoints := setpoints.(yaw := Some(0.0));
      setpoints := setpoints.(pitchRate := None);
      setpoints := setpoints.(yawRate := None);
      SendAck(from, CMD_DO_SET_ROI_NONE, ACCEPTED);
    }

    method HandleGlobalPositionInt(from: Sender, lat: int, lon: int, alt: int, relativeAlt: int)
      modifies this
      ensures Now() == StepGlobalPosition(w, old(Now()), from, lat, lon, alt, relativeAlt) && sent == old(sent)
    {
      if from.sysid != w.ownSysid || from.compid != COMP_ID_AUTOPILOT1 {
        return;
      }
      var position := GlobalPosition(FromDegE7(lat), FromDegE7(lon), FromMillimetres(alt));
      vehicle := vehicle.(position := Some(position));
      vehicle := vehicle.(relativeAlt := FromMillimetres(relativeAlt));
    }

    method HandleAttitude(from: Sender, yawRad: Option<real>)
      modifies this
      ensures Now() == StepAttitude(w, old(Now()), from, yawRad) && sent == old(sent)
    {
      if from.sysid != w.ownSysid || from.compid != COMP_ID_AUTOPILOT1 {
        return;
      }
      if yawRad.Some? {
        vehicle := vehicle.(yaw := Some(w.degrees(yawRad.value)));
      }
    }

    method HandleSetAttitude(from: Sender, m: AttitudeFields)
      modifies this
      ensures Now() == StepSetAttitude(w, old(Now()), from, m) && sent == old(sent)
    {
      if !ForUs(w, m.targetSystem, m.targetComponent, m.deviceId)
         || !InControl(owners.primarySysid, owners.primaryCompid, Low8(from.sysid), Low8(from.compid)) {
        return;
      }
      ApplyFlags(m.flags);
      roi := None;
      if m.q.Some? {
        var setpoint := w.euler(m.q.value);
        setpoints := setpoints.(pitch := Some(setpoint.pitch));
        var vehicleFrameYaw := EarthToVehicleYawIfNeeded(setpoint.yaw, m.flags);
        setpoints := setpoints.(yaw := Some(vehicleFrameYaw));
      } else {
        setpoints := setpoints.(pitch := None);
        setpoints := setpoints.(yaw := None);
      }
      setpoints := setpoints.(pitchRate := if m.rateY.Some? then Some(w.degrees(m.rateY.value)) else None);
      setpoints := setpoints.(yawRate := if m.rateZ.Some? then Some(w.degrees(m.rateZ.value)) else None);
    }

    /** `threw` is for the exception of `json::value` on a null, thrown while logging. */
    method HandleSetPitchyaw(from: Sender, m: PitchyawFields) returns (threw: bool)
      modifies this
      ensures var o := StepSetPitchyaw(w, old(Now()), from, m);
              Now() == o.state && sent == old(sent) + o.replies && threw == o.threw
    {
      if !ForUs(w, m.targetSystem, m.targetComponent, m.deviceId)
         || !InControl(owners.primarySysid, owners.primaryCompid, Low8(from.sysid), Low8(from.compid)) {
        return false;
      }
      if m.pitch.None? || m.yaw.None? {
        return true;
      }
      ApplyFlags(m.flags);
      roi := None;
      setpoints := setpoints.(pitch := Some(w.degrees(m.pitch.value)));
      var vehicleFrameYaw := EarthToVehicleYawIfNeeded(w.degrees(m.yaw.value), m.flags);
      setpoints := setpoints.(yaw := Some(vehicleFrameYaw));
      setpoints := setpoints.(pitchRate := if m.pitchRate.Some? then Some(w.degrees(m.pitchRate.value)) else None);
      setpoints := setpoints.(yawRate := if m.yawRate.Some? then Some(w.degrees(m.yawRate.value)) else None);
      return false;
    }

    /** NEUTRAL zeroes the setpoints here, but no caller lets those zeros stand. */
    method ApplyFlags(flags: nat)
      modifies `yawLock, `setpoints
      ensures yawLock == HasFlag(flags, FLAG_YAW_LOCK)
      ensures if HasFlag(flags, FLAG_NEUTRAL)
              then setpoints == old(setpoints).(pitch := Some(0.0), yaw := Some(0.0))
              else setpoints == old(setpoints)
    {
      yawLock := HasFlag(flags, FLAG_YAW_LOCK);
      if HasFlag(flags, FLAG_NEUTRAL) {
        setpoints := setpoints.(pitch := Some(0.0));
        setpoints := setpoints.(yaw := Some(0.0));
      }
    }

    method EarthToVehicleYawIfNeeded(yawDeg: real, flags: nat) returns (y: real)
      ensures y == VehicleYaw(Now(), yawDeg, flags)
    {
      if HasFlag(flags, FLAG_YAW_IN_EARTH_FRAME) {
        y := WrapDegrees(yawDeg - vehicle.yaw.GetOr(0.0));
      } else {
        y := yawDeg;
      }
    }

    method UpdateSimulation(dt: real)
      requires 0.0 < dt
      modifies this
      ensures Now() == Simulated(w, old(Now()), dt) && sent == old(sent)
    {
      if roi.Some? && vehicle.position.Some? {
        var angles := PointingAnglesToRoi(w, vehicle.position.value, roi.value, vehicle.yaw.GetOr(0.0));
        setpoints := setpoints.(pitch := Some(angles.pitch));
        setpoints := setpoints.(yaw := Some(angles.yaw));
      }
      var pitch, pitchRate := UpdateAxis(dt, Demand(setpoints.pitch, setpoints.pitchRate), PITCH_LIMITS, pose.pitch);
      pose := pose.(pitch := pitch, pitchRate := pitchRate);
      var yaw, yawRate := UpdateAxis(dt, Demand(setpoints.yaw, setpoints.yawRate), YAW_LIMITS, pose.yaw);
      pose := pose.(yaw := yaw, yawRate := yawRate);
    }

    /** One event of a run: a message for its handler, or a tick of the simulation. */
    method Receive(e: Event) returns (threw: bool)
      modifies this
      ensures var o := Step(w, old(Now()), e);
              Now() == o.state && sent == old(sent) + o.replies && threw == o.threw
    {
      threw := false;
      match e {
        case CommandMessage(from, c) => HandleCommand(from, c);
        case SetAttitude(from, m) => HandleSetAttitude(from, m);
        case SetPitchyaw(from, m) => threw := HandleSetPitchyaw(from, m);
        case GlobalPositionInt(from, lat, lon, alt, rel) => HandleGlobalPositionInt(from, lat, lon, alt, rel);
        case Attitude(from, yaw) => HandleAttitude(from, yaw);
        case Tick => UpdateSimulation(DT);
      }
    }
  }
}
