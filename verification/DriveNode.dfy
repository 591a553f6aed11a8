/** The velocity path as objects: the base controller, the motor node and the motor
    controller between them, and one pass of a command all the way round. */
module DriveNode {
  import opened Bytes
  import opened PdoMapping
  import opened MotorControl
  import opened VelocityPath

  /** What a speed message says about the base. */
  datatype Measurement = Motion(twist: Twist) | NoTurnRate(v: real)

  class BaseController {
    const cfg: Base
    var target: Twist
    var lastCommand: real
    var started: bool
    var lastOdometry: real

    constructor (b: Base)
      ensures cfg == b && target == Twist(0.0, 0.0) && lastCommand == 0.0 && !started
    {
      cfg, target, lastCommand, started := b, Twist(0.0, 0.0), 0.0, false;
    }

    method CmdVelCallback(t: Twist, now: real)
      modifies this`target, this`lastCommand
      ensures target == t && lastCommand == now
    {
      target, lastCommand := t, now;
    }

    method ControlTimer(now: real) returns (cmd: Pair)
      requires cfg.pi > 0.0
      ensures cmd == MotorCommand(cfg, InForce(cfg, target, now - lastCommand))
      ensures now - lastCommand > cfg.timeout ==> cmd == Pair(0.0, 0.0)
      ensures now - lastCommand <= cfg.timeout ==>
                exists t :: Limited(cfg, target, t) && cmd == MotorCommand(cfg, t)
    {
      InForceMeans(cfg, target, now - lastCommand);
      StandingStill(cfg);
      hide MotorCommand, Limited;
      var t := target;
      if now - lastCommand > cfg.timeout {
        t := Twist(0.0, 0.0);
      }
      t := Twist(Limit(t.v, cfg.maxLinear), Limit(t.w, cfg.maxAngular));
      cmd := MotorCommand(cfg, t);
    }

    /** The speed a message measures, with the time it is integrated over; nothing for
        a short message, unusable parameters, the first message or a still clock.
        Without a wheel separation the turn rate is not a number. */
    method VelocityCallback(msg: seq<real>, now: real) returns (measured: Measurement, dt: real)
      modifies this`started, this`lastOdometry
      ensures dt >= 0.0
      ensures dt > 0.0 <==> |msg| >= 2 && Usable(cfg) && old(started) && now > old(lastOdometry)
      ensures dt > 0.0 ==> dt == now - old(lastOdometry)
      ensures dt > 0.0 && cfg.separation != 0.0 ==> measured == Motion(Measured(cfg, Pair(msg[0], msg[1])))
      ensures dt > 0.0 && cfg.separation == 0.0 ==> measured == NoTurnRate(MeasuredSpeed(cfg, Pair(msg[0], msg[1])))
      ensures started <==> old(started) || (|msg| >= 2 && Usable(cfg))
      ensures lastOdometry == if |msg| >= 2 && Usable(cfg) then now else old(lastOdometry)
    {
      measured, dt := Motion(Twist(0.0, 0.0)), 0.0;
      if |msg| < 2 || !Usable(cfg) {
        return;
      }
      var pair := Pair(msg[0], msg[1]);
      var m := if cfg.separation != 0.0 then Motion(Measured(cfg, pair)) else NoTurnRate(MeasuredSpeed(cfg, pair));
      if !started {
        started, lastOdometry := true, now;
        return;
      }
      var passed := now - lastOdometry;
      lastOdometry := now;
      if passed <= 0.0 {
        return;
      }
      measured, dt := m, passed;
    }
  }

  /** Entry i is not repeated before entry `upto`. */
  predicate NotAgain(ids: seq<byte>, i: nat, upto: nat)
    requires i < |ids| && upto <= |ids|
  {
    forall k :: i < k < upto ==> ids[k] != ids[i]
  }

  datatype Directions = Unset | Signs(signs: seq<int>)

  class MotorDriverNode {
    const ids: seq<byte>
    const dirs: seq<int>
    const controller: MotorController
    var enabled: bool

    ghost predicate Valid()
      reads this, controller
    {
      && controller.Valid() && controller.nodeIds == ids && |dirs| == |ids|
      && forall i :: 0 <= i < |dirs| ==> dirs[i] in {-1, 1}
    }

    /** A direction list of the wrong length is ignored. */
    constructor (c: MotorController, directions: Directions)
      requires c.Valid()
      ensures Valid() && controller == c && ids == c.nodeIds && !enabled
      ensures directions.Signs? && |directions.signs| == |c.nodeIds| ==>
                forall i :: 0 <= i < |dirs| ==> dirs[i] == Direction(directions.signs[i])
      ensures !(directions.Signs? && |directions.signs| == |c.nodeIds|) ==>
                forall i :: 0 <= i < |dirs| ==> dirs[i] == 1
    {
      controller, ids, enabled := c, c.nodeIds, false;
      if directions.Signs? && |directions.signs| == |c.nodeIds| {
        dirs := seq(|c.nodeIds|, i requires 0 <= i < |directions.signs| => Direction(directions.signs[i]));
      } else {
        dirs := seq(|c.nodeIds|, _ => 1);
      }
    }

    /** A speed message reaches the drives only if it is long enough and the drives are
        enabled; a drive listed twice gets the later value. */
    method CmdCallback(data: seq<real>)
      requires Valid()
      modifies controller`states
      ensures Valid() && controller.states.Keys == old(controller.states).Keys
      ensures |data| < |ids| || !enabled ==> controller.states == old(controller.states)
      ensures |data| >= |ids| && enabled ==>
                forall i :: 0 <= i < |ids| && NotAgain(ids, i, |ids|) ==>
                  controller.states[ids[i]].target == Mirrored(ids[i], Turned(dirs[i], data[i]))
    {
      if |data| < |ids| || !enabled {
        return;
      }
      hide Mirrored, Turned;
      for i := 0 to |ids|
        invariant Valid() && controller.states.Keys == old(controller.states).Keys
        invariant forall j :: 0 <= j < i && NotAgain(ids, j, i) ==>
                    controller.states[ids[j]].target == Mirrored(ids[j], Turned(dirs[j], data[j]))
      {
        ghost var before := controller.states;
        assert ids[i] in controller.nodeIds;
        controller.SetTargetVelocity(ids[i], Turned(dirs[i], data[i]));
        forall j | 0 <= j < i + 1 && NotAgain(ids, j, i + 1)
          ensures controller.states[ids[j]].target == Mirrored(ids[j], Turned(dirs[j], data[j]))
        {
          if j < i {
            assert NotAgain(ids, j, i) && ids[i] != ids[j];
            assert ids[j] in controller.nodeIds && controller.states[ids[j]] == before[ids[j]];
          }
        }
      }
    }

    method VelocityMessage() returns (data: seq<real>)
      requires Valid()
      ensures |data| == |ids|
      ensures forall i :: 0 <= i < |ids| ==>
                data[i] == Turned(dirs[i], FeedbackRpm(ids[i], controller.states[ids[i]].velocity))
    {
      data := [];
      for i := 0 to |ids|
        invariant |data| == i
        invariant forall j :: 0 <= j < i ==>
                    data[j] == Turned(dirs[j], FeedbackRpm(ids[j], controller.states[ids[j]].velocity))
      {
        var rpm := controller.GetFeedbackVelocity(ids[i]);
        data := data + [Turned(dirs[i], rpm)];
      }
    }
  }

  /** A drive that turns as commanded reports the pulses it was sent, at any position. */
  function Echo(f: CanFrame, position: int): CanFrame
    requires f.id >= RPDO2_ID_BASE
  {
    CanFrame(f.id - RPDO2_ID_BASE + TPDO2_ID_BASE, f.data + Bytes32(position))
  }

  predicate Fits32(p: int) { -0x8000_0000 <= p < 0x8000_0000 }

  lemma EchoReports(n: byte, target: real, position: int)
    requires n < 0x80 && Fits32(Pulses(target))
    ensures var f := Echo(VelocityFrame(n, target), position);
            f.id % 0x80 == n as int && VelocityReport(f) && Le32(f.data) == Pulses(target)
            && !BootUp(f) && !StatusReport(f)
  {
    hide Pulses;
    var p := Pulses(target);
    Le32RoundTrip(p);
    var f := Echo(VelocityFrame(n, target), position);
    assert f.data[0] == Bytes32(p)[0] && f.data[1] == Bytes32(p)[1]
        && f.data[2] == Bytes32(p)[2] && f.data[3] == Bytes32(p)[3];
  }

  lemma TwoFrames(states: map<byte, Node>, a: byte, b: byte)
    requires a in states && b in states
    ensures VelocityFrames(states, [a, b]) == [VelocityFrame(a, states[a].target), VelocityFrame(b, states[b].target)]
  {
    assert [a, b][..1] == [a] && [a][..0] == [];
    assert VelocityFrames(states, [a]) == [VelocityFrame(a, states[a].target)];
  }

  /** A node that drives two distinct motors and is enabled. */
  ghost predicate TwoDrives(node: MotorDriverNode)
    reads node, node.controller
  {
    && node.Valid() && node.enabled && |node.ids| == 2
    && node.ids[0] != node.ids[1] && node.ids[0] < 0x80 && node.ids[1] < 0x80
  }

  /** What a pair of shaft speeds becomes as the drives' targets. */
  function Targets(node: MotorDriverNode, cmd: Pair): Pair
    requires |node.ids| == 2 == |node.dirs|
  {
    Pair(Mirrored(node.ids[0], Turned(node.dirs[0], cmd.first)),
         Mirrored(node.ids[1], Turned(node.dirs[1], cmd.second)))
  }

  /** What two drives that turn as commanded make the node publish. */
  function Published(node: MotorDriverNode, targets: Pair): Pair
    requires |node.ids| == 2 == |node.dirs|
  {
    Pair(Turned(node.dirs[0], FeedbackRpm(node.ids[0], Pulses(targets.first))),
         Turned(node.dirs[1], FeedbackRpm(node.ids[1], Pulses(targets.second))))
  }

  method Command(node: MotorDriverNode, cmd: Pair)
    requires TwoDrives(node)
    modifies node.controller`states, node.controller`wire
    ensures TwoDrives(node) && |node.controller.wire| >= 3
    ensures var c, w, t := node.controller, node.controller.wire, Targets(node, cmd);
            w[|w| - 3] == VelocityFrame(node.ids[0], t.first) && w[|w| - 2] == VelocityFrame(node.ids[1], t.second)
  {
    hide Mirrored, Pulses;
    var c, a, b, data := node.controller, node.ids[0], node.ids[1], [cmd.first, cmd.second];
    node.CmdCallback(data);
    assert data[0] == cmd.first && data[1] == cmd.second;
    assert a in c.nodeIds && b in c.nodeIds;
    assert c.states[node.ids[0]].target == Targets(node, cmd).first;
    assert c.states[node.ids[1]].target == Targets(node, cmd).second;
    c.SyncOnce();
    TwoFrames(c.states, a, b);
    assert c.nodeIds == [a, b];
  }

  /** Both drives answer the last commands; the node publishes what it made of them. */
  method Answer(node: MotorDriverNode, targets: Pair, p: int, q: int) returns (data: seq<real>)
    requires TwoDrives(node) && |node.controller.wire| >= 3
    requires var w := node.controller.wire;
             w[|w| - 3] == VelocityFrame(node.ids[0], targets.first) &&
             w[|w| - 2] == VelocityFrame(node.ids[1], targets.second)
    requires Fits32(Pulses(targets.first)) && Fits32(Pulses(targets.second))
    modifies node.controller`states
    ensures TwoDrives(node) && |data| == 2 && Pair(data[0], data[1]) == Published(node, targets)
  {
    var c, a, b := node.controller, node.ids[0], node.ids[1];
    assert a in c.nodeIds && b in c.nodeIds;
    var fa, fb := c.wire[|c.wire| - 3], c.wire[|c.wire| - 2];
    assert fa.id >= RPDO2_ID_BASE && fb.id >= RPDO2_ID_BASE;
    hide FeedbackRpm, Pulses, VelocityFrame, Echo, BootUp, StatusReport, VelocityReport;
    EchoReports(a, targets.first, p);
    EchoReports(b, targets.second, q);
    c.CanCallback(Echo(fa, p));
    assert c.states[a].velocity == Pulses(targets.first);
    c.CanCallback(Echo(fb, q));
    data := node.VelocityMessage();
    assert data[0] == Turned(node.dirs[0], FeedbackRpm(a, c.states[a].velocity));
    assert data[1] == Turned(node.dirs[1], FeedbackRpm(b, c.states[b].velocity));
  }

  /** One pass: a control tick, the motor node, a turn of the sync loop, two drives
      that turn as commanded, and the published speeds measured again. */
  method OnePass(base: BaseController, node: MotorDriverNode, now: real, p: int, q: int)
    returns (measured: Twist)
    requires TwoDrives(node) && Usable(base.cfg) && base.cfg.pi > 0.0 && base.cfg.separation != 0.0
    requires var t := Targets(node, MotorCommand(base.cfg, InForce(base.cfg, base.target, now - base.lastCommand)));
             Fits32(Pulses(t.first)) && Fits32(Pulses(t.second))
    modifies node.controller`states, node.controller`wire
    ensures now - base.lastCommand > base.cfg.timeout ==> measured == Twist(0.0, 0.0)
    ensures now - base.lastCommand <= base.cfg.timeout ==>
              exists t :: Limited(base.cfg, base.target, t)
                && Abs(measured.v - t.v) < Epsilon(base.cfg)
                && Abs(measured.w - t.w) < 2.0 * Epsilon(base.cfg) / Abs(base.cfg.separation)
  {
    InForceMeans(base.cfg, base.target, now - base.lastCommand);
    assert node.Valid() && |node.ids| == 2;
    var drives := Drives(node.ids[0], node.ids[1], node.dirs[0], node.dirs[1]);
    MeasuredStill(base.cfg, drives);
    hide InForce, MotorCommand, Measured, Mirrored, FeedbackRpm, Pulses, Epsilon, Usable, TwoDrives, Limited;
    var cmd := base.ControlTimer(now);
    Command(node, cmd);
    var data := Answer(node, Targets(node, cmd), p, q);
    measured := Measured(base.cfg, Pair(data[0], data[1]));
    OdometryError(base.cfg, drives, InForce(base.cfg, base.target, now - base.lastCommand));
  }
}
