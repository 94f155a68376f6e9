/**
 What holds over whole runs of the gimbal manager: an invariant, the irrelevance of refused and
 foreign messages, exclusivity of control, equivalence of message forms, and settling.
 */
module GimbalRuns {
  import opened Options
  import opened Numbers
  import opened Angles
  import opened GimbalAxis
  import opened GimbalProtocol

  function Run(w: World, s: State, es: seq<Event>): State
    decreases es
  {
    if es == [] then s else Run(w, Step(w, s, es[0]).state, es[1..])
  }

  // ---------------------------------------------------------------- the invariant

  /**
   An active region of interest comes with unset rate setpoints and a known vehicle position, so
   tracking slews at the default rate and its position guard never blocks; both axes are in range.
   */
  ghost predicate Sound(s: State) {
    && Within(s.pose.pitch, PITCH_LIMITS)
    && Within(s.pose.yaw, YAW_LIMITS)
    && (s.roi.Some? ==>
          s.setpoints.pitchRate.None? && s.setpoints.yawRate.None? && s.vehicle.position.Some?)
  }

  lemma CommandsKeepSound(w: World, s: State, from: Sender, c: Command)
    requires Sound(s)
    ensures Sound(StepCommand(w, s, from, c).state)
  {
  }

  lemma EventsKeepSound(w: World, s: State, e: Event)
    requires Sound(s)
    ensures Sound(Step(w, s, e).state)
  {
    if e.CommandMessage? {
      CommandsKeepSound(w, s, e.sender, e.command);
    }
  }

  /** Sound at the start, sound for ever. */
  lemma {:induction false} RunsStaySound(w: World, s: State, es: seq<Event>)
    requires Sound(s)
    ensures Sound(INITIAL)
    ensures Sound(Run(w, s, es))
    decreases es
  {
    if es != [] {
      EventsKeepSound(w, s, es[0]);
      RunsStaySound(w, Step(w, s, es[0]).state, es[1..]);
    }
  }

  // ---------------------------------------------------------------- acknowledgements

  function Acks(replies: seq<Reply>): seq<Reply> {
    if replies == [] then []
    else (if replies[0].Ack? then [replies[0]] else []) + Acks(replies[1..])
  }

  /** The commands this component understands; anything else it may leave to another component. */
  predicate Understood(w: World, c: Command) {
    || c.command in {CMD_DO_PITCHYAW, CMD_DO_CONFIGURE, CMD_DO_SET_ROI_LOCATION, CMD_DO_SET_ROI_NONE}
    || (c.command == CMD_REQUEST_MESSAGE
        && DeviceId(w, c.param1) in {ID_MANAGER_INFORMATION, ID_DEVICE_INFORMATION})
  }

  /**
   A command is acknowledged once, to its sender and under its own number, exactly when it is
   addressed here and either understood or addressed to this component by name.  Unless that
   acknowledgement says accepted, nothing has changed.
   */
  lemma OneAckOrNone(w: World, s: State, from: Sender, c: Command)
    ensures var o := StepCommand(w, s, from, c);
            var answered := ForUs(w, c.targetSystem, c.targetComponent, 0)
                            && (Understood(w, c) || c.targetComponent == w.ownCompid);
            && (if answered
                then exists result :: Acks(o.replies) == [Ack(Low8(from.sysid), Low8(from.compid), c.command, result)]
                else o.replies == [])
            && (o.state != s ==> Acks(o.replies) == [Ack(Low8(from.sysid), Low8(from.compid), c.command, ACCEPTED)])
  {
    var o := StepCommand(w, s, from, c);
    if o.replies != [] {
      var first := o.replies[0];
      assert first == Ack(Low8(from.sysid), Low8(from.compid), c.command, first.result);
      assert Acks(o.replies[1..]) == [];
      assert Acks(o.replies) == [first];
    }
  }

  /**
   The events that count: ticks, telemetry of the own autopilot, accepted commands, and
   setpoint messages addressed here by someone in control that do not throw.
   */
  predicate Counts(w: World, s: State, e: Event) {
    match e
    case CommandMessage(from, c) =>
      var replies := StepCommand(w, s, from, c).replies;
      replies != [] && replies[0].Ack? && replies[0].result == ACCEPTED
    case SetAttitude(from, m) => ForUs(w, m.targetSystem, m.targetComponent, m.deviceId) && MaySteer(s, from)
    case SetPitchyaw(from, m) =>
      && ForUs(w, m.targetSystem, m.targetComponent, m.deviceId) && MaySteer(s, from)
      && m.pitch.Some? && m.yaw.Some?
    case GlobalPositionInt(from, _, _, _, _) => FromAutopilot(w, from)
    case Attitude(from, _) => FromAutopilot(w, from)
    case Tick => true
  }

  /** The run with every event dropped that did not count when it arrived. */
  function Counting(w: World, s: State, es: seq<Event>): seq<Event>
    decreases es
  {
    if es == [] then []
    else (if Counts(w, s, es[0]) then [es[0]] else []) + Counting(w, Step(w, s, es[0]).state, es[1..])
  }

  /** Whether a handler throws somewhere in a run; a program that is ended by it is at the end of its run. */
  predicate Throws(w: World, s: State, es: seq<Event>)
    decreases es
  {
    es != [] && (Step(w, s, es[0]).threw || Throws(w, Step(w, s, es[0]).state, es[1..]))
  }

  lemma OthersLeaveNoTrace(w: World, s: State, e: Event)
    requires !Counts(w, s, e)
    ensures Step(w, s, e).state == s
  {
  }

  lemma CountingDoesNotThrow(w: World, s: State, e: Event)
    requires Counts(w, s, e)
    ensures !Step(w, s, e).threw
  {
    OnlyNullsThrow(w, s, e);
  }

  /** Every run ends where the run of its counting events ends, in which nothing throws. */
  lemma {:induction false} OnlyCountingEventsMatter(w: World, s: State, es: seq<Event>)
    ensures Run(w, s, Counting(w, s, es)) == Run(w, s, es)
    ensures !Throws(w, s, Counting(w, s, es))
    decreases es
  {
    if es != [] {
      var e, rest := es[0], es[1..];
      var s' := Step(w, s, e).state;
      OnlyCountingEventsMatter(w, s', rest);
      if Counts(w, s, e) {
        assert Counting(w, s, es)[1..] == Counting(w, s', rest);
        CountingDoesNotThrow(w, s, e);
      } else {
        OthersLeaveNoTrace(w, s, e);
        assert Counting(w, s, es) == Counting(w, s, rest);
      }
    }
  }

  // ---------------------------------------------------------------- what throws

  /** Exactly a SET_PITCHYAW for this gimbal, by someone in control, whose pitch or yaw is null; it changes nothing. */
  lemma OnlyNullsThrow(w: World, s: State, e: Event)
    ensures Step(w, s, e).threw
            <==> e.SetPitchyaw?
                 && ForUs(w, e.pitchyaw.targetSystem, e.pitchyaw.targetComponent, e.pitchyaw.deviceId)
                 && MaySteer(s, e.sender) && (e.pitchyaw.pitch.None? || e.pitchyaw.yaw.None?)
    ensures Step(w, s, e).threw ==> Step(w, s, e).state == s && Step(w, s, e).replies == []
  {
  }

  // ---------------------------------------------------------------- NEUTRAL does nothing

  /** A DO_GIMBAL_MANAGER_PITCHYAW command with these flags in param5 or x. */
  function WithFlags(c: Command, flags: nat): Command {
    match c.tail
    case Long(_, p6, p7) => c.(tail := Long(Some(flags as real), p6, p7))
    case Int(frame, _, y, z) => c.(tail := Int(frame, Some(flags), y, z))
  }

  /** For every message that carries flags, setting NEUTRAL makes no difference to what it does. */
  lemma NeutralChangesNothing(
    w: World, s: State, from: Sender, m: PitchyawFields, a: AttitudeFields, c: Command, flags: nat)
    requires flags < 0x1_0000_0000
    ensures StepSetPitchyaw(w, s, from, m.(flags := WithNeutral(m.flags))) == StepSetPitchyaw(w, s, from, m)
    ensures StepSetAttitude(w, s, from, a.(flags := WithNeutral(a.flags))) == StepSetAttitude(w, s, from, a)
    ensures StepPitchyaw(w, s, from, WithFlags(c, WithNeutral(flags))) == StepPitchyaw(w, s, from, WithFlags(c, flags))
  {
    NeutralIsOneBit(m.flags, FLAG_YAW_LOCK);
    NeutralIsOneBit(m.flags, FLAG_YAW_IN_EARTH_FRAME);
    NeutralIsOneBit(a.flags, FLAG_YAW_LOCK);
    NeutralIsOneBit(a.flags, FLAG_YAW_IN_EARTH_FRAME);
    NeutralIsOneBit(flags, FLAG_YAW_LOCK);
    NeutralFits(flags);
    CastOfWhole(w, flags);
    CastOfWhole(w, WithNeutral(flags));
  }

  lemma NeutralFits(flags: nat)
    requires flags < 0x1_0000_0000
    ensures WithNeutral(flags) < 0x1_0000_0000
  {
    SecondBit(flags);
  }

  // ---------------------------------------------------------------- exclusive control

  /** A configure command that gets past the address check; anyone may send one. */
  predicate Reconfigures(w: World, e: Event) {
    && e.CommandMessage?
    && e.command.command == CMD_DO_CONFIGURE
    && ForUs(w, e.command.targetSystem, e.command.targetComponent, 0)
    && ForUs(w, e.command.targetSystem, e.command.targetComponent, DeviceId(w, e.command.Param7()))
  }

  /** A configure command that would change a primary id. */
  predicate TakesControl(w: World, sysid: byte, compid: byte, e: Event) {
    && Reconfigures(w, e)
    && (Configured(w, e.command.param1, Low8(e.sender.sysid), sysid) != sysid
        || Configured(w, e.command.param2, Low8(e.sender.compid), compid) != compid)
  }

  /** Ticks, telemetry and configure commands, and what the owner says: its ids are compared after truncation. */
  predicate OwnersOrNeutral(w: World, sysid: byte, compid: byte, e: Event) {
    (e.CommandMessage? || e.SetAttitude? || e.SetPitchyaw?) && !Reconfigures(w, e) ==>
      Low8(e.sender.sysid) == sysid && Low8(e.sender.compid) == compid
  }

  function WithoutOthers(w: World, sysid: byte, compid: byte, es: seq<Event>): seq<Event> {
    if es == [] then []
    else (if OwnersOrNeutral(w, sysid, compid, es[0]) then [es[0]] else []) + WithoutOthers(w, sysid, compid, es[1..])
  }

  predicate Owned(s: State) {
    s.owners.primarySysid != 0 || s.owners.primaryCompid != 0
  }

  lemma OthersChangeNothing(w: World, s: State, e: Event)
    requires Owned(s) && !TakesControl(w, s.owners.primarySysid, s.owners.primaryCompid, e)
    ensures var t := Step(w, s, e).state;
            t.owners.primarySysid == s.owners.primarySysid && t.owners.primaryCompid == s.owners.primaryCompid
    ensures !OwnersOrNeutral(w, s.owners.primarySysid, s.owners.primaryCompid, e) ==> Step(w, s, e).state == s
  {
  }

  /**
   Non-interference: once someone is in control and until a configure command changes who, the
   state is what it would be had nobody else said anything but configure commands.
   */
  lemma {:induction false} ControlIsExclusive(w: World, s: State, es: seq<Event>)
    requires Owned(s)
    requires forall i :: 0 <= i < |es| ==> !TakesControl(w, s.owners.primarySysid, s.owners.primaryCompid, es[i])
    ensures Run(w, s, WithoutOthers(w, s.owners.primarySysid, s.owners.primaryCompid, es)) == Run(w, s, es)
    decreases es
  {
    if es != [] {
      var e, rest := es[0], es[1..];
      var sys, comp := s.owners.primarySysid, s.owners.primaryCompid;
      OthersChangeNothing(w, s, e);
      ControlIsExclusive(w, Step(w, s, e).state, rest);
      if OwnersOrNeutral(w, sys, comp, e) {
        assert WithoutOthers(w, sys, comp, es)[1..] == WithoutOthers(w, sys, comp, rest);
      } else {
        assert WithoutOthers(w, sys, comp, es) == WithoutOthers(w, sys, comp, rest);
      }
    }
  }

  /** A request for primary control as a ground station sends it: both primary ids by -2. */
  predicate Claims(w: World, e: Event) {
    && Reconfigures(w, e)
    && e.command.param1 == Some(-2.0)
    && e.command.param2 == Some(-2.0)
  }

  /** Whoever claims control has it alone until it is given up or taken, whoever had it before. */
  lemma ClaimTakesOver(w: World, s: State, claim: Event, es: seq<Event>)
    requires Claims(w, claim)
    requires var sys, comp := Low8(claim.sender.sysid), Low8(claim.sender.compid); sys != 0 || comp != 0
    requires var sys, comp := Low8(claim.sender.sysid), Low8(claim.sender.compid);
             forall i :: 0 <= i < |es| ==> !TakesControl(w, sys, comp, es[i])
    ensures var sys, comp := Low8(claim.sender.sysid), Low8(claim.sender.compid);
            Run(w, s, [claim] + es) == Run(w, s, [claim] + WithoutOthers(w, sys, comp, es))
  {
    var sys, comp := Low8(claim.sender.sysid), Low8(claim.sender.compid);
    var s' := Step(w, s, claim).state;
    assert s'.owners.primarySysid == sys && s'.owners.primaryCompid == comp;
    ControlIsExclusive(w, s', es);
    assert ([claim] + es)[1..] == es;
    assert ([claim] + WithoutOthers(w, sys, comp, es))[1..] == WithoutOthers(w, sys, comp, es);
  }

  // ---------------------------------------------------------------- equivalent message forms

  /** The COMMAND_LONG that means the same as a COMMAND_INT, given where the vehicle is. */
  function AsLong(s: State, c: Command): Command
    requires c.tail.Int?
  {
    var Int(frame, x, y, z) := c.tail;
    if c.command == CMD_DO_SET_ROI_LOCATION then
      var raise :=
        if (frame == FRAME_GLOBAL_RELATIVE_ALT || frame == FRAME_GLOBAL_RELATIVE_ALT_INT) && s.vehicle.position.Some?
        then s.vehicle.position.value.alt - s.vehicle.relativeAlt
        else 0.0;
      c.(tail := Long(Some(FromDegE7(x.GetOr(0))), Some(FromDegE7(y.GetOr(0))), Some(z.GetOr(0.0) + raise)))
    else
      c.(tail := Long(if x.Some? then Some(x.value as real) else None,
                      if y.Some? then Some(y.value as real) else None, z))
  }

  predicate FrameSupported(c: Command) {
    c.command == CMD_DO_SET_ROI_LOCATION && c.tail.Int? ==>
      c.tail.frame in {FRAME_GLOBAL, FRAME_GLOBAL_INT, FRAME_GLOBAL_RELATIVE_ALT, FRAME_GLOBAL_RELATIVE_ALT_INT}
  }

  /**
   COMMAND_INT and COMMAND_LONG say the same, state and acknowledgement alike: x and z stand for
   param5 and param7, a ROI's position is in 1e-7 degrees, and a relative altitude is raised to
   AMSL.  The one exception is a ROI in an unsupported frame, and only if it is sent to this gimbal
   by someone in control and the vehicle position is known.
   */
  lemma IntMeansLong(w: World, s: State, from: Sender, c: Command)
    requires c.tail.Int?
    ensures StepCommand(w, s, from, c) == StepCommand(w, s, from, AsLong(s, c))
            <==> (FrameSupported(c)
                  || !ForUs(w, c.targetSystem, c.targetComponent, DeviceId(w, c.param1))
                  || !MaySteer(s, from)
                  || s.vehicle.position.None?)
  {
    assert AsLong(s, c).command == c.command;
  }

  /** The DO_GIMBAL_MANAGER_PITCHYAW command that says what a SET_PITCHYAW message says. */
  function AsPitchyawCommand(w: World, m: PitchyawFields): Command {
    Command(m.targetSystem, m.targetComponent, CMD_DO_PITCHYAW,
            OptionalDegrees(w, m.pitch), OptionalDegrees(w, m.yaw),
            OptionalDegrees(w, m.pitchRate), OptionalDegrees(w, m.yawRate),
            Long(Some(m.flags as real), None, Some(m.deviceId as real)))
  }

  lemma CastOfWhole(w: World, n: nat)
    requires n < 0x1_0000_0000
    ensures ToUnsigned(w, n as real) == n
  {
  }

  /**
   The message is obeyed as the command is exactly when it is ignored, or pitch and yaw are numbers
   and the earth-frame bit does not turn the yaw: it is clear, or the heading leaves this yaw as it is.
   */
  lemma PitchyawFormsAgree(w: World, s: State, from: Sender, m: PitchyawFields)
    requires m.flags < 0x1_0000_0000 && m.deviceId < 0x1_0000_0000
    ensures var message := StepSetPitchyaw(w, s, from, m);
            !message.threw && message.state == StepCommand(w, s, from, AsPitchyawCommand(w, m)).state
            <==> (!ForUs(w, m.targetSystem, m.targetComponent, m.deviceId)
                  || !MaySteer(s, from)
                  || (m.pitch.Some? && m.yaw.Some?
                      && (!HasFlag(m.flags, FLAG_YAW_IN_EARTH_FRAME)
                          || Wrap180(w.degrees(m.yaw.value) - s.vehicle.yaw.GetOr(0.0)) == w.degrees(m.yaw.value))))
  {
    CastOfWhole(w, m.flags);
    CastOfWhole(w, m.deviceId);
    var message := StepSetPitchyaw(w, s, from, m).state;
    var command := StepCommand(w, s, from, AsPitchyawCommand(w, m)).state;
    if ForUs(w, m.targetSystem, m.targetComponent, m.deviceId) && MaySteer(s, from) && m.pitch.Some? && m.yaw.Some? {
      assert message == command <==> message.setpoints.yaw == command.setpoints.yaw;
    }
  }

  /** Rates alone, as the protocol allows them: the command sets them, the message throws and sets nothing. */
  lemma RatesOnlyThrows(w: World, s: State, from: Sender, m: PitchyawFields)
    requires m.flags < 0x1_0000_0000 && m.deviceId < 0x1_0000_0000
    requires ForUs(w, m.targetSystem, m.targetComponent, m.deviceId) && MaySteer(s, from)
    requires m.pitch.None? && m.yaw.None? && m.pitchRate.Some? && m.yawRate.Some?
    ensures StepSetPitchyaw(w, s, from, m) == Outcome(s, [], true)
    ensures var command := StepCommand(w, s, from, AsPitchyawCommand(w, m));
            && !command.threw
            && command.state.setpoints
               == Setpoints(None, None, Some(w.degrees(m.pitchRate.value)), Some(w.degrees(m.yawRate.value)))
  {
    CastOfWhole(w, m.flags);
    CastOfWhole(w, m.deviceId);
  }

  /** An earth-frame yaw is stored so that adding the vehicle heading gives the commanded direction. */
  lemma {:induction false} EarthFrameYawIsKept(w: World, s: State, from: Sender, m: PitchyawFields, a: AttitudeFields)
    requires MaySteer(s, from)
    ensures ForUs(w, m.targetSystem, m.targetComponent, m.deviceId) && m.pitch.Some? && m.yaw.Some?
            && HasFlag(m.flags, FLAG_YAW_IN_EARTH_FRAME) ==>
              var stored := StepSetPitchyaw(w, s, from, m).state.setpoints.yaw;
              stored.Some? && -180.0 <= stored.value <= 180.0
              && SameDirection(w.degrees(m.yaw.value), stored.value + s.vehicle.yaw.GetOr(0.0))
    ensures ForUs(w, a.targetSystem, a.targetComponent, a.deviceId) && a.q.Some?
            && HasFlag(a.flags, FLAG_YAW_IN_EARTH_FRAME) ==>
              var stored := StepSetAttitude(w, s, from, a).setpoints.yaw;
              stored.Some? && -180.0 <= stored.value <= 180.0
              && SameDirection(w.euler(a.q.value).yaw, stored.value + s.vehicle.yaw.GetOr(0.0))
  {
    if m.yaw.Some? {
      HeadingMoves(w.degrees(m.yaw.value), s.vehicle.yaw.GetOr(0.0));
    }
    if a.q.Some? {
      HeadingMoves(w.euler(a.q.value).yaw, s.vehicle.yaw.GetOr(0.0));
    }
  }

  lemma HeadingMoves(yaw: real, heading: real)
    ensures SameDirection(yaw, Wrap180(yaw - heading) + heading)
  {
    var r := Wrap180(yaw - heading);
    assert yaw - heading - r == yaw - (r + heading);
  }

  // ---------------------------------------------------------------- settling

  function AfterTicks(w: World, s: State, n: nat): State {
    if n == 0 then s else Simulated(w, AfterTicks(w, s, n - 1), DT)
  }

  lemma {:induction false} TicksAreARun(w: World, s: State, n: nat)
    ensures Run(w, s, seq(n, i => Tick)) == AfterTicks(w, s, n)
  {
    if n != 0 {
      TicksAreARun(w, s, n - 1);
      RunAppend(w, s, seq(n - 1, i => Tick), Tick);
      assert seq(n, i => Tick) == seq(n - 1, i => Tick) + [Tick];
    }
  }

  lemma {:induction false} RunAppend(w: World, s: State, es: seq<Event>, e: Event)
    ensures Run(w, s, es + [e]) == Step(w, Run(w, s, es), e).state
    decreases es
  {
    if es == [] {
      assert es + [e] == [e];
    } else {
      RunAppend(w, Step(w, s, es[0]).state, es[1..], e);
      assert (es + [e])[1..] == es[1..] + [e];
    }
  }

  /** Same aim and rates, and nothing but the simulated quantities different. */
  ghost predicate SameCourse(w: World, s: State, t: State) {
    && Aim(w, t) == Aim(w, s)
    && t.setpoints.pitchRate == s.setpoints.pitchRate && t.setpoints.yawRate == s.setpoints.yawRate
    && t.roi == s.roi && t.vehicle == s.vehicle && t.yawLock == s.yawLock && t.owners == s.owners
  }

  lemma TickStaysOnCourse(w: World, s: State)
    ensures SameCourse(w, s, Simulated(w, s, DT))
  {
  }

  lemma SameCourseSameMotion(w: World, s: State, t: State)
    requires SameCourse(w, s, t)
    ensures PitchMotion(w, t, DT) == PitchMotion(w, s, DT) && YawMotion(w, t, DT) == YawMotion(w, s, DT)
  {
  }

  /**
   While only ticks arrive, each axis is under one constant demand, region of interest or not,
   so it is exactly where `TicksCompose` puts it; nothing but the simulated quantities changes.
   */
  lemma {:induction false} TicksFollowOneAim(w: World, s: State, n: nat)
    requires Sound(s)
    ensures var t := AfterTicks(w, s, n);
            && t.pose.pitch == After(n, PitchMotion(w, s, DT), PITCH_LIMITS, s.pose.pitch)
            && t.pose.yaw == After(n, YawMotion(w, s, DT), YAW_LIMITS, s.pose.yaw)
            && SameCourse(w, s, t)
  {
    if n != 0 {
      TicksFollowOneAim(w, s, n - 1);
      var t := AfterTicks(w, s, n - 1);
      TickStaysOnCourse(w, t);
      SameCourseSameMotion(w, s, t);
    }
  }

  /**
   An aimed axis holds its limited aim at tick n exactly when n moves at its rate setpoint, or at 60
   degrees a second without one, cover the distance; from anywhere and without rates, 100 ticks do
   for pitch and 267 for yaw.
   */
  lemma Settles(w: World, s: State, n: nat)
    requires Sound(s)
    ensures var (pitch, _) := Aim(w, s);
            pitch.Some? ==>
              var goal := Limit(pitch.value, PITCH_LIMITS);
              && (AfterTicks(w, s, n).pose.pitch == goal
                  <==> Abs(goal - s.pose.pitch) <= Times(n, Abs(s.setpoints.pitchRate.GetOr(60.0)) * 0.02))
              && (s.setpoints.pitchRate.None? && 100 <= n ==> AfterTicks(w, s, n).pose.pitch == goal)
    ensures var (_, yaw) := Aim(w, s);
            yaw.Some? ==>
              var goal := Limit(yaw.value, YAW_LIMITS);
              && (AfterTicks(w, s, n).pose.yaw == goal
                  <==> Abs(goal - s.pose.yaw) <= Times(n, Abs(s.setpoints.yawRate.GetOr(60.0)) * 0.02))
              && (s.setpoints.yawRate.None? && 267 <= n ==> AfterTicks(w, s, n).pose.yaw == goal)
  {
    TicksFollowOneAim(w, s, n);
    var (pitch, yaw) := Aim(w, s);
    if pitch.Some? {
      Arrives(n, pitch.value, s.setpoints.pitchRate, PITCH_LIMITS, s.pose.pitch);
    }
    if yaw.Some? {
      Arrives(n, yaw.value, s.setpoints.yawRate, YAW_LIMITS, s.pose.yaw);
    }
  }

  /** The same of one axis. */
  lemma Arrives(n: nat, target: real, rate: Option<real>, limits: Limits, start: real)
    requires limits.lo <= limits.hi && Within(start, limits)
    ensures var goal := Limit(target, limits);
            var there := After(n, MotionOf(Demand(Some(target), rate), DT), limits, start) == goal;
            && (there <==> Abs(goal - start) <= Times(n, Abs(rate.GetOr(60.0)) * 0.02))
            && (rate.None? && limits.hi - limits.lo <= n as real * 1.2 ==> there)
  {
    var motion := MotionOf(Demand(Some(target), rate), DT);
    assert motion == Slew(target, Abs(rate.GetOr(60.0)) * 0.02) by {
      MotionInNumbers(Demand(Some(target), rate));
    }
    ReachedExactlyWhenCovered(n, motion, limits, start);
    if rate.None? {
      DefaultReach(n);
    }
  }

  lemma DefaultReach(n: nat)
    ensures Times(n, Abs(60.0) * 0.02) == n as real * 1.2
  {
    TimesIsProduct(n, 1.2);
  }

  /** Whether an axis that was early is later on its way to the goal, and not past it. */
  ghost predicate OnTheWay(early: real, late: real, goal: real) {
    early <= late <= goal || goal <= late <= early
  }

  /** While only ticks arrive an aimed axis moves monotonically towards its limited aim and never past it, at any rate. */
  lemma Approaches(w: World, s: State, m: nat, n: nat)
    requires Sound(s) && m <= n
    ensures var (pitch, yaw) := Aim(w, s);
            var early, late := AfterTicks(w, s, m).pose, AfterTicks(w, s, n).pose;
            && (pitch.Some? ==> OnTheWay(early.pitch, late.pitch, Limit(pitch.value, PITCH_LIMITS)))
            && (yaw.Some? ==> OnTheWay(early.yaw, late.yaw, Limit(yaw.value, YAW_LIMITS)))
  {
    TicksFollowOneAim(w, s, m);
    TicksFollowOneAim(w, s, n);
    var (pitch, yaw) := Aim(w, s);
    if pitch.Some? {
      NeverOvershoots(m, n, PitchMotion(w, s, DT), PITCH_LIMITS, s.pose.pitch);
    }
    if yaw.Some? {
      NeverOvershoots(m, n, YawMotion(w, s, DT), YAW_LIMITS, s.pose.yaw);
    }
  }

  // ---------------------------------------------------------------- reported rates

  /** The rates that the ticks of a run leave behind, integrated over the ticks. */
  function ReportedTravel(w: World, s: State, es: seq<Event>): PitchYaw
    decreases es
  {
    if es == [] then PitchYaw(0.0, 0.0)
    else
      var t := Step(w, s, es[0]).state;
      var rest := ReportedTravel(w, t, es[1..]);
      if es[0].Tick? then PitchYaw(t.pose.pitchRate * DT + rest.pitch, t.pose.yawRate * DT + rest.yaw)
      else rest
  }

  lemma TickAccounts(w: World, s: State)
    ensures var t := Simulated(w, s, DT);
            && t.pose.pitchRate * DT == t.pose.pitch - s.pose.pitch
            && t.pose.yawRate * DT == t.pose.yaw - s.pose.yaw
  {
  }

  lemma OnlyTicksMove(w: World, s: State, e: Event)
    requires !e.Tick?
    ensures Step(w, s, e).state.pose == s.pose
  {
  }

  /** For every run of messages and ticks the reported rates add up to where the axes went. */
  lemma {:induction false} RunsAccount(w: World, s: State, es: seq<Event>)
    ensures var t := Run(w, s, es);
            ReportedTravel(w, s, es) == PitchYaw(t.pose.pitch - s.pose.pitch, t.pose.yaw - s.pose.yaw)
    decreases es
  {
    if es != [] {
      if es[0].Tick? {
        TickAccounts(w, s);
      } else {
        OnlyTicksMove(w, s, es[0]);
      }
      RunsAccount(w, Step(w, s, es[0]).state, es[1..]);
    }
  }
}
