/** The lift driver as the object it is: fields updated in place by callbacks and
    a poll timer, each proved to compute the functions of LiftSpec.  `wire` is
    the serial port's output; `sent` names the command behind each frame on it. */
module LiftDriverNode {
  import opened Bytes
  import opened LiftFrames
  import opened LiftSpec

  /** The parameters as the constructor clamps them; tenth is 0.1 s. */
  function Clamp(raw: Config, tenth: int): Config {
    raw.(scale := if raw.scale < 1.0 then 1.0 else raw.scale,
         resetInterval := if raw.resetInterval < tenth then tenth else raw.resetInterval,
         maxAttempts := if raw.maxAttempts < 0 then 0 else raw.maxAttempts,
         maxCycles := if raw.maxCycles < 0 then 0 else raw.maxCycles)
  }

  /** The byte sum both directions use: modulo 256, one byte at a time. */
  method SumBytes(f: seq<byte>) returns (sum: byte)
    ensures sum == Sum(f) % 256
  {
    sum := 0;
    for k := 0 to |f|
      invariant sum == Sum(f[..k]) % 256
    {
      SumPrefix(f, k);
      sum := (sum as int + f[k] as int) % 256;
    }
    assert f[..|f|] == f;
  }

  /** RMID TMID ID PID NUM DATA.. CHK, built byte by byte. */
  method BuildFrame(a: Addresses, pid: byte, data: seq<byte>) returns (f: seq<byte>)
    ensures f == Request(a, pid, data)
  {
    f := [a.rmid, a.host, a.ctrl, pid, |data| % 256];
    ghost var head := f;
    for k := 0 to |data|
      invariant f == head + data[..k]
    {
      f := f + [data[k]];
    }
    assert f == head + data;
    var sum := SumBytes(f);
    assert (0 - sum as int) % 256 == Checksum(f);
    f := f + [(0 - sum as int) % 256];
  }

  /** The fields are grouped as in LiftSpec.State: the link to the drive, the
      motion, the homing attempt, the velocity watch, the alarm, the resume. */
  class LiftDriver {
    const cfg: Config
    var wire: seq<seq<byte>>
    ghost var sent: seq<Sent>
    var link: Link
    var motion: Motion
    var homing: HomingRun
    var pendingHome: bool
    var watch: Watch
    var alarm: AlarmState
    var resume: Resume

    /** The frames on the wire are the encoded commands of the log. */
    ghost predicate Valid()
      reads this`wire, this`sent
    {
      && |wire| == |sent|
      && forall i :: 0 <= i < |sent| ==> wire[i] == CommandFrame(cfg.addresses, sent[i].cmd)
    }

    ghost function View(): State
      reads this
    {
      State(link, motion, homing, pendingHome, watch, alarm, resume, sent)
    }

    constructor (raw: Config, tenth: int, now: int)
      requires tenth > 0
      ensures cfg == Clamp(raw, tenth) && ValidConfig(cfg)
      ensures Valid() && View() == Init(cfg, now)
    {
      cfg := Clamp(raw, tenth);
      wire, sent := [], [];
      link := Link([], false, 0, 0, 0, 0, 0);
      motion := Motion(Manual, 0, false);
      homing := HomingRun(0, 0, 0, 0, false);
      pendingHome := raw.positionControl && raw.autoHome;
      watch := Watch(0, 0, 0, 0, false);
      alarm := AlarmState(false, 0, false, 0);
      resume := Resume(Manual, 0, 0);
      new;
      if BasePositionSpeed(cfg) > 0 {
        Send(now, PositionVelocity(BasePositionSpeed(cfg) % 0x1_0000));
      }
    }

    method SendFrame(pid: byte, data: seq<byte>)
      modifies this`wire
      ensures wire == old(wire) + [Request(cfg.addresses, pid, data)]
    {
      var f := BuildFrame(cfg.addresses, pid, data);
      wire := wire + [f];
    }

    method Send(now: int, cmd: Command)
      requires Valid()
      modifies this`wire, this`sent
      ensures Valid() && View() == Emit(old(View()), now, cmd)
    {
      match cmd {
        case Velocity(v) => SendFrame(PID_VEL_CMD, Bytes16(v));
        case AbsPosition(counts) => SendFrame(PID_POSI_CMD, Bytes32(counts));
        case IncPosition(counts) => SendFrame(PID_INC_POSI_CMD, Bytes32(counts));
        case PositionVelocity(v) => SendFrame(PID_TAR_POSI_VEL, Bytes16(v));
        case OriginReset => SendFrame(PID_POSI_RESET, [0]);
        case AlarmReset => SendFrame(PID_ALARM_RESET, [0]);
        case MonitorRequest => SendFrame(PID_REQ_PID_DATA, [PID_MONITOR]);
      }
      sent := sent + [Sent(now, cmd)];
    }

    method SendVelocity(now: int, rpm: int)
      requires Valid()
      modifies this`wire, this`sent, this`watch
      ensures Valid() && View() == LiftSpec.SendVelocity(old(View()), now, rpm)
    {
      if rpm != watch.cmd {
        watch := watch.(cmd := rpm, since := now, refValid := false);
      }
      Send(now, Velocity(rpm));
    }

    /* ---- receiving ---- */

    method HandleFrame(now: int, f: Frame)
      modifies this`link
      ensures link == LiftSpec.HandleFrame(old(link), now, f)
    {
      var d, n := f.data, |f.data|;
      if f.pid == PID_MONITOR && n >= 12 {
        link := link.(rpm := Le16(d));
        link := link.(status := d[6]);
        link := link.(position := Le32(d[7..]));
        link := link.(di := d[11]);
        link := link.(gotData := true, lastRx := now);
      } else if f.pid == PID_POSI_DATA && n >= 4 {
        link := link.(position := Le32(d));
        link := link.(gotData := true, lastRx := now);
      }
    }

    /** Append what was read and scan the buffer for frames. */
    method ReadAndParse(now: int, chunk: seq<byte>)
      modifies this`link
      ensures link == Receive(cfg.addresses, old(link), now, chunk)
    {
      hide Scan, Sum, LiftSpec.HandleFrame, HandleFrames;
      link := link.(rx := link.rx + chunk);
      ghost var buf, all := link.rx, Scan(cfg.addresses, link.rx);
      ghost var frames: seq<Frame>, start := [], link;
      HandleNone(start, now);
      assert buf[0..] == buf;
      var i := 0;
      while |link.rx| >= i + 6
        invariant i <= |link.rx| && link.rx == buf
        invariant link == HandleFrames(start, now, frames)
        invariant all.frames == frames + Scan(cfg.addresses, buf[i..]).frames
        invariant all.rest == Scan(cfg.addresses, buf[i..]).rest
        decreases |link.rx| - i
      {
        ScanFrom(cfg.addresses, buf, i);
        if link.rx[i] != cfg.addresses.host || link.rx[i + 1] != cfg.addresses.rmid {
          i := i + 1;
          continue;
        }
        var num := link.rx[i + 4];
        var flen := 5 + num as int + 1;
        if |link.rx| < i + flen {
          break;
        }
        var sum := SumBytes(link.rx[i..i + flen]);
        if sum == 0 {
          var f := Frame(link.rx[i + 3], link.rx[i + 5..i + flen - 1]);
          HandleFrame(now, f);
          HandleFramesLast(start, now, frames, f);
          RxUntouched(start, now, frames + [f]);
          frames := frames + [f];
          i := i + flen;
        } else {
          i := i + 1;
        }
      }
      ScanStops(cfg.addresses, buf[i..]);
      assert frames == all.frames && buf[i..] == all.rest;
      LeftoverIsShort(cfg.addresses, buf);
      RxCommutes(start, now, frames, all.rest);
      link := link.(rx := link.rx[i..]);
      assert start.(rx := all.rest) == old(link).(rx := all.rest);
      // The guard against a runaway buffer; LeftoverIsShort shows it never acts.
      link := link.(rx := if |link.rx| > 512 then [] else link.rx);
    }

    /* ---- alarm ---- */

    method CancelResume()
      modifies this`resume
      ensures View() == LiftSpec.CancelResume(old(View()))
    {
      resume := resume.(cycles := 0);
      resume := resume.(mode := Manual);
    }

    method RequestAlarmReset(now: int, manual: bool)
      requires Valid()
      modifies this`wire, this`sent, this`watch, this`alarm
      ensures Valid() && View() == LiftSpec.RequestAlarmReset(cfg, old(View()), now, manual)
    {
      hide Valid;
      if !manual && cfg.maxAttempts > 0 && alarm.attempts >= cfg.maxAttempts {
        alarm := alarm.(exhausted := true);
        return;
      }
      SendVelocity(now, 0);
      Send(now, AlarmReset);
      alarm := alarm.(lastReset := now);
      alarm := alarm.(attempts := alarm.attempts + 1);
    }

    method ResumeAfterAlarm(now: int, pos: int)
      requires Valid()
      modifies this`wire, this`sent, this`motion, this`homing, this`resume
      ensures Valid() && View() == LiftSpec.ResumeAfterAlarm(cfg, old(View()), now, pos)
    {
      hide Valid;
      if resume.mode == Manual {
        return;
      }
      if cfg.maxCycles > 0 && resume.cycles >= cfg.maxCycles {
        resume := resume.(mode := Manual);
        return;
      }
      resume := resume.(cycles := resume.cycles + 1);
      if resume.mode == Homing {
        resume := resume.(mode := Manual);
        motion := motion.(mode := Homing);
        homing := homing.(start := now, tracking := false);
        return;
      }
      resume := resume.(mode := Manual);
      motion := motion.(target := resume.target, mode := Position);
      if motion.homed {
        Send(now, AbsPosition(motion.target));
      } else {
        Send(now, IncPosition(motion.target - pos));
      }
    }

    /** The rising edge of the alarm. */
    method RaiseAlarm(now: int)
      requires Valid()
      modifies this`wire, this`sent, this`watch, this`alarm, this`motion, this`resume
      ensures Valid() && View() == LiftSpec.RaiseAlarm(old(View()), now)
    {
      hide Valid;
      alarm := alarm.(active := true);
      alarm := alarm.(attempts := 0, exhausted := false);
      alarm := alarm.(lastReset := 0);
      SendVelocity(now, 0);
      if motion.mode != Homing && motion.mode != Manual {
        resume := resume.(mode := motion.mode, target := motion.target);
      }
      motion := motion.(mode := Manual);
    }

    method UpdateAlarm(now: int, live: bool, status: byte, pos: int)
      requires Valid()
      modifies this`wire, this`sent, this`watch, this`alarm, this`motion, this`homing, this`resume
      ensures Valid() && View() == LiftSpec.UpdateAlarm(cfg, old(View()), now, live, status, pos)
    {
      hide Valid, LiftSpec.RequestAlarmReset, LiftSpec.ResumeAfterAlarm;
      if !live {
        return;
      }
      var raised := Alarm(status);
      if raised && !alarm.active {
        RaiseAlarm(now);
      }
      if !raised && alarm.active {
        alarm := alarm.(active := false);
        alarm := alarm.(attempts := 0, exhausted := false);
        ResumeAfterAlarm(now, pos);
        return;
      }
      if alarm.active && cfg.autoReset && !alarm.exhausted {
        if alarm.lastReset == 0 || now - alarm.lastReset >= cfg.resetInterval {
          RequestAlarmReset(now, false);
        }
      }
    }

    /* ---- motion ---- */

    method CompleteHoming(now: int)
      requires Valid()
      modifies this`wire, this`sent, this`watch, this`motion, this`resume
      ensures Valid() && View() == LiftSpec.CompleteHoming(cfg, old(View()), now)
    {
      hide Valid, BasePositionSpeed, ScaledPositionSpeed;
      SendVelocity(now, 0);
      Send(now, OriginReset);
      motion := motion.(homed := true);
      motion := motion.(mode := Manual);
      resume := resume.(cycles := 0);
      if BasePositionSpeed(cfg) > 0 && cfg.scale > 1.0 {
        Send(now, PositionVelocity(ScaledPositionSpeed(cfg)));
      }
    }

    method UpdateHoming(now: int, live: bool, pos: int, di: byte)
      requires Valid()
      modifies this`wire, this`sent, this`watch, this`motion, this`homing, this`resume
      ensures Valid() && View() == LiftSpec.UpdateHoming(cfg, old(View()), now, live, pos, di)
    {
      hide Valid, LiftSpec.CompleteHoming, LimitReached;
      if now - homing.start > cfg.homeTimeout {
        SendVelocity(now, 0);
        motion := motion.(mode := Manual);
        resume := resume.(cycles := 0);
        return;
      }
      if LimitReached(cfg, di, live) {
        CompleteHoming(now);
        return;
      }
      SendVelocity(now, homing.dirSpeed);
      if !live {
        homing := homing.(tracking := false);
        return;
      }
      if !homing.tracking || Abs(pos - homing.stallRef) > cfg.stallCounts {
        homing := homing.(stallRef := pos, stallSince := now);
        homing := homing.(tracking := true);
      } else if now - homing.start >= cfg.homeMin && now - homing.stallSince >= cfg.stallTime {
        CompleteHoming(now);
      }
    }

    method UpdateMotion(now: int, live: bool, pos: int, di: byte)
      requires Valid()
      modifies this`wire, this`sent, this`watch, this`motion, this`homing, this`resume
      ensures Valid() && View() == LiftSpec.UpdateMotion(cfg, old(View()), now, live, pos, di)
    {
      hide Valid, LiftSpec.UpdateHoming;
      if motion.mode == Homing {
        UpdateHoming(now, live, pos, di);
      } else if motion.mode == Position {
        if live && Abs(motion.target - pos) <= cfg.tolerance {
          motion := motion.(mode := Manual);
          resume := resume.(cycles := 0);
        }
      }
    }

    method ReleaseIfBlocked(now: int, live: bool, pos: int, di: byte)
      requires Valid()
      modifies this`wire, this`sent, this`watch
      ensures Valid() && View() == LiftSpec.ReleaseIfBlocked(cfg, old(View()), now, live, pos, di)
    {
      hide Valid, AtLowerLimit;
      if !cfg.autoRelease || motion.mode != Manual || watch.cmd == 0 || !live {
        return;
      }
      if watch.cmd < 0 && AtLowerLimit(cfg, di, live) {
        SendVelocity(now, 0);
        return;
      }
      if now - watch.since < cfg.releaseGrace {
        return;
      }
      if !watch.refValid || Abs(pos - watch.ref) > cfg.stallCounts {
        watch := watch.(ref := pos, refTime := now);
        watch := watch.(refValid := true);
        return;
      }
      if now - watch.refTime >= cfg.releaseStop {
        SendVelocity(now, 0);
      }
    }

    /* ---- callbacks ---- */

    method CommandCallback(now: int, text: string)
      requires Valid()
      modifies this`wire, this`sent, this`watch, this`motion, this`resume
      ensures Valid() && View() == OnText(cfg, old(View()), now, text)
    {
      hide Valid, ManualUpSpeed, ToInt16;
      if text != "up" && text != "down" && text != "stop" {
        return;
      }
      motion := motion.(mode := Manual);
      CancelResume();
      if text == "up" {
        SendVelocity(now, ManualUpSpeed(cfg, motion.homed));
      } else if text == "down" {
        SendVelocity(now, ToInt16(-ManualUpSpeed(cfg, motion.homed)));
      } else {
        SendVelocity(now, 0);
      }
    }

    method VelocityCmdCallback(now: int, rpm: int)
      requires Valid()
      modifies this`wire, this`sent, this`watch, this`motion, this`resume
      ensures Valid() && View() == ManualVelocity(old(View()), now, rpm)
    {
      hide Valid;
      motion := motion.(mode := Manual);
      CancelResume();
      SendVelocity(now, rpm);
    }

    method PositionCmdCallback(now: int, counts: int)
      requires Valid()
      modifies this`wire, this`sent, this`motion, this`resume
      ensures Valid() && View() == OnPosition(old(View()), now, counts)
    {
      hide Valid;
      if !motion.homed {
        return;
      }
      if alarm.active {
        return;
      }
      CancelResume();
      motion := motion.(target := counts);
      motion := motion.(mode := Position);
      Send(now, AbsPosition(motion.target));
    }

    method IncPositionCmdCallback(now: int, counts: int)
      requires Valid()
      modifies this`wire, this`sent, this`motion, this`resume
      ensures Valid() && View() == OnIncPosition(old(View()), now, counts)
    {
      hide Valid;
      if alarm.active {
        return;
      }
      CancelResume();
      motion := motion.(target := link.position + counts);
      motion := motion.(mode := Position);
      Send(now, IncPosition(counts));
    }

    method HomeCallback(now: int, start: bool)
      requires Valid()
      modifies this`wire, this`sent, this`watch, this`motion, this`homing, this`resume, this`pendingHome
      ensures Valid() && View() == OnHome(cfg, old(View()), now, start)
    {
      hide Valid, HomingVelocity;
      if !start {
        pendingHome := false;
        CancelResume();
        if motion.mode == Homing {
          motion := motion.(mode := Manual);
          SendVelocity(now, 0);
        }
        return;
      }
      if alarm.active {
        return;
      }
      if HomingSpeed(cfg) == 0 {
        return;
      }
      homing := homing.(dirSpeed := HomingVelocity(cfg));
      motion := motion.(mode := Homing);
      homing := homing.(start := now, tracking := false);
      pendingHome := false;
      CancelResume();
    }

    method ResetCallback(now: int, go: bool)
      requires Valid()
      modifies this`wire, this`sent, this`watch, this`alarm, this`resume
      ensures Valid() && View() == OnReset(cfg, old(View()), now, go)
    {
      hide Valid, LiftSpec.RequestAlarmReset;
      if !go {
        return;
      }
      alarm := alarm.(attempts := 0, exhausted := false);
      resume := resume.(cycles := 0);
      if !alarm.active {
        Send(now, AlarmReset);
        alarm := alarm.(lastReset := now);
        return;
      }
      RequestAlarmReset(now, true);
    }

    /** The alarm handling must come before the motion, which may resend a speed. */
    method PollTimer(now: int, chunk: seq<byte>)
      requires Valid()
      modifies this
      ensures Valid() && View() == OnPoll(cfg, old(View()), now, chunk)
    {
      hide Valid, LiftSpec.UpdateAlarm, LiftSpec.UpdateMotion, LiftSpec.ReleaseIfBlocked, Receive, StartHoming;
      Send(now, MonitorRequest);
      ReadAndParse(now, chunk);
      var pos, st, di := link.position, link.status, link.di;
      var live := link.gotData && now - link.lastRx < cfg.timeout;
      UpdateAlarm(now, live, st, pos);
      LinkStays(cfg, old(View()), now, chunk);
      if pendingHome && live && !alarm.active {
        HomeCallback(now, true);
      }
      UpdateMotion(now, live, pos, di);
      ReleaseIfBlocked(now, live, pos, di);
    }

    /* ---- the event loop ---- */

    method Dispatch(e: Timed)
      requires Valid()
      modifies this
      ensures Valid() && View() == Step(cfg, old(View()), e)
    {
      hide Valid, OnPoll, OnText, ManualVelocity, OnPosition, OnIncPosition, OnHome, OnReset;
      match e.ev {
        case TextCommand(text) => CommandCallback(e.at, text);
        case VelocityCmd(rpm) => VelocityCmdCallback(e.at, rpm);
        case PositionCmd(counts) => if cfg.positionControl { PositionCmdCallback(e.at, counts); }
        case IncPositionCmd(counts) => if cfg.positionControl { IncPositionCmdCallback(e.at, counts); }
        case Home(start) => if cfg.positionControl { HomeCallback(e.at, start); }
        case Reset(go) => ResetCallback(e.at, go);
        case Poll(chunk) => PollTimer(e.at, chunk);
      }
    }

    /** All callbacks and the timer run on one thread, one event after another. */
    method Spin(events: seq<Timed>)
      requires Valid()
      modifies this
      ensures Valid() && View() == Exec(cfg, old(View()), events)
    {
      hide Valid, Step;
      ghost var s := View();
      for k := 0 to |events|
        invariant Valid()
        invariant Exec(cfg, s, events) == Exec(cfg, View(), events[k..])
      {
        Dispatch(events[k]);
        assert events[k..][1..] == events[k + 1..];
      }
    }
  }

  lemma LinkStays(c: Config, s: State, now: int, chunk: seq<byte>)
    ensures PollAlarm(c, s, now, chunk).link == Receive(c.addresses, s.link, now, chunk)
  {
    hide Receive, Alarm, Fresh;
  }

  lemma HandleNone(l: Link, now: int)
    ensures HandleFrames(l, now, []) == l
  {
  }

  /** Where the scanning loop stops, nothing more is found. */
  lemma ScanStops(a: Addresses, buf: seq<byte>)
    requires |buf| < 6 || (Candidate(a, buf) && |buf| < FrameLength(buf))
    ensures Scan(a, buf) == Scanned([], buf)
  {
  }

  lemma {:induction false} RxCommutes(l: Link, now: int, fs: seq<Frame>, rx: seq<byte>)
    ensures HandleFrames(l, now, fs).(rx := rx) == HandleFrames(l.(rx := rx), now, fs)
    decreases |fs|
  {
    if fs != [] {
      assert LiftSpec.HandleFrame(l, now, fs[0]).(rx := rx) == LiftSpec.HandleFrame(l.(rx := rx), now, fs[0]);
      RxCommutes(LiftSpec.HandleFrame(l, now, fs[0]), now, fs[1..], rx);
    }
  }
}
