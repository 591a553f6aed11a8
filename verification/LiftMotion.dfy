/** Where the axis is told to go: the direction of a homing, what ends it, and the
    target of a move, over whole runs. */
module LiftMotion {
  import opened Bytes
  import opened LiftFrames
  import opened LiftSpec
  import opened LiftInvariant
  import opened LiftAlarm
  import opened LiftHoming
  import opened LiftResume
  import Bits

  /* ---- homing runs downwards ---- */

  /** Opposite to the sign that means up, at the homing speed if one is configured and
      else at the manual speed, as far as sixteen bits hold it. */
  predicate Downward(c: Config, rpm: int) {
    var size := if c.homeSpeed > 0 then c.homeSpeed else Abs(c.upSpeed);
    size < 0x8000 ==> rpm != 0 && Abs(rpm) == size && (rpm < 0 <==> c.upSpeed >= 0)
  }

  ghost predicate HomesDown(c: Config, s: State) { s.motion.mode == Homing ==> Downward(c, s.homing.dirSpeed) }

  lemma StartsDown(c: Config, s: State, now: int)
    requires HomingStarts(c, s)
    ensures StartHoming(c, s, now).motion.mode == Homing && HomesDown(c, StartHoming(c, s, now))
  {
  }

  lemma CommandStartsDown(c: Config, s: State, e: Timed)
    requires Begins(c, s, e) && !e.ev.Poll?
    ensures HomesDown(c, Step(c, s, e))
  {
    StartsDown(c, s, e.at);
  }

  lemma MotionKeepsSpeed(c: Config, s: State, now: int, live: bool, pos: int, di: byte)
    ensures UpdateMotion(c, s, now, live, pos, di).homing.dirSpeed == s.homing.dirSpeed
  {
    hide HomingTimedOut, LimitReached, WindowRestarts, StallConfirmed, BasePositionSpeed, ScaledPositionSpeed;
  }

  /** What the motion half starts from homes down if it homes. */
  lemma AtMotionDown(c: Config, s: State, from: int, e: Timed)
    requires ValidConfig(c) && Inv(c, s, from) && from <= e.at && HomesDown(c, s) && e.ev.Poll?
    ensures HomesDown(c, AtMotion(c, s, e))
  {
    hide PollAlarm, Downward, HomingVelocity, LogInv, CounterInv, ModeInv, TimeInv, HomingStarts;
    var t := PollAlarm(c, s, e.at, e.ev.chunk);
    if AutoHomes(c, t, e.at) {
      StartsDown(c, t, e.at);
    } else if t.motion.mode == Homing {
      AlarmHalfHoming(c, s, from, e);
    }
  }

  lemma StepHomesDown(c: Config, s: State, from: int, e: Timed)
    requires ValidConfig(c) && Inv(c, s, from) && from <= e.at && HomesDown(c, s)
    ensures HomesDown(c, Step(c, s, e))
  {
    hide PollAlarm, LogInv, CounterInv, ModeInv, TimeInv, AutoHomes, UpdateMotion, Fresh, AtLowerLimit, HomingVelocity,
         SendVelocity, OnText, ManualVelocity, OnPosition, OnIncPosition, OnHome, OnReset, HomingStarts, Downward;
    if e.ev.Poll? {
      var u := AtMotion(c, s, e);
      var live := Fresh(c, u.link, e.at);
      AtMotionDown(c, s, from, e);
      MotionKeepsStart(c, u, e.at, live, u.link.position, u.link.di);
      MotionKeepsSpeed(c, u, e.at, live, u.link.position, u.link.di);
      SendVelocityEffect(UpdateMotion(c, u, e.at, live, u.link.position, u.link.di), e.at, 0);
    } else if Step(c, s, e).motion.mode == Homing {
      CommandAttempt(c, s, e);
      if Begins(c, s, e) { CommandStartsDown(c, s, e); }
    }
  }

  lemma {:induction false} RunHomesDown(c: Config, s: State, from: int, evs: seq<Timed>)
    requires ValidConfig(c) && Inv(c, s, from) && Chronological(from, evs) && HomesDown(c, s)
    ensures HomesDown(c, Exec(c, s, evs))
    decreases |evs|
  {
    hide Step, Inv, HomesDown;
    if evs != [] {
      StepKeeps(c, s, from, evs[0]);
      StepHomesDown(c, s, from, evs[0]);
      RunHomesDown(c, Step(c, s, evs[0]), evs[0].at, evs[1..]);
    }
  }

  /* ---- what a homing tick does ---- */

  /** The lower limit switch is in use and every masked input is off. */
  ghost predicate AtTheBottom(c: Config, di: byte) {
    c.useLimitSwitch && forall j: nat :: !Bits.Both(di, c.descendMask % 256, j)
  }

  /** The axis stood within the stall threshold of the window's start for the stall time,
      and the attempt is old enough. */
  predicate StoodStill(c: Config, h: HomingRun, pos: int, now: int) {
    && h.tracking && Abs(pos - h.stallRef) <= c.stallCounts
    && now - h.stallSince >= c.stallTime && now - h.start >= c.homeMin
  }

  /** The frames a homing tick sends after its first half: this speed, a stop, the origin,
      and the speed of later moves. */
  ghost predicate HomingFrames(c: Config, before: seq<Sent>, after: seq<Sent>, now: int, rpm: int) {
    && before < after
    && forall i :: |before| <= i < |after| ==> after[i].at == now && HomingFrame(after[i].cmd, rpm)
  }

  predicate HomingFrame(cmd: Command, rpm: int) {
    cmd in {Velocity(0), Velocity(rpm), OriginReset} || cmd.PositionVelocity?
  }

  /** A homing tick before the timeout sets the origin exactly at the bottom or after a
      standstill; past the timeout it stops; otherwise it goes on homing. */
  lemma HomingOutcome(c: Config, s: State, now: int, live: bool, pos: int, di: byte)
    requires s.motion.mode == Homing
    ensures var t := UpdateHoming(c, s, now, live, pos, di);
            var late := now - s.homing.start > c.homeTimeout;
            var there := live && (AtTheBottom(c, di) || StoodStill(c, s.homing, pos, now));
            && HomingFrames(c, s.sent, t.sent, now, s.homing.dirSpeed)
            && (Origins(t.sent) == Origins(s.sent) + if !late && there then 1 else 0)
            && t.motion == (if late then s.motion.(mode := Manual)
                            else if there then s.motion.(mode := Manual, homed := true) else s.motion)
            && (late ==> t.sent == s.sent + [Sent(now, Velocity(0))])
            && (!late && !there ==> t.sent == s.sent + [Sent(now, Velocity(s.homing.dirSpeed))])
  {
    hide AtLowerLimit, AtTheBottom, Origins, BasePositionSpeed, ScaledPositionSpeed;
    AtTheBottomIsLimit(c, di, live);
    var v := SendVelocity(s, now, s.homing.dirSpeed);
    SpeedSetsNoOrigin(s, now, 0);
    SpeedSetsNoOrigin(s, now, s.homing.dirSpeed);
    Completed(c, s, now);
    Completed(c, v, now);
  }

  lemma AtTheBottomIsLimit(c: Config, di: byte, live: bool)
    ensures LimitReached(c, di, live) <==> live && AtTheBottom(c, di)
  {
    LimitMeansInputsOff(c, di, live);
  }

  /** Completing a homing stops the axis, sets the origin and, with a scaled speed, tells
      the drive that speed. */
  lemma Completed(c: Config, s: State, now: int)
    ensures var t := CompleteHoming(c, s, now);
            && t.sent == s.sent + [Sent(now, Velocity(0)), Sent(now, OriginReset)]
                         + (if BasePositionSpeed(c) > 0 && c.scale > 1.0
                            then [Sent(now, PositionVelocity(ScaledPositionSpeed(c)))] else [])
            && Origins(t.sent) == Origins(s.sent) + 1
            && t.motion == s.motion.(mode := Manual, homed := true)
  {
    hide Origins, BasePositionSpeed, ScaledPositionSpeed;
    SpeedSetsNoOrigin(s, now, 0);
    var log := s.sent + [Sent(now, Velocity(0))];
    OriginsAppend(log, Sent(now, OriginReset));
    OriginsAppend(log + [Sent(now, OriginReset)], Sent(now, PositionVelocity(ScaledPositionSpeed(c))));
    assert log + [Sent(now, OriginReset)] == s.sent + [Sent(now, Velocity(0)), Sent(now, OriginReset)];
  }

  /** After the homing half the release has nothing to do: the axis homes on or was
      stopped. */
  lemma NoRelease(c: Config, s: State, now: int, live: bool, pos: int, di: byte)
    requires s.motion.mode == Homing
    ensures var t := UpdateHoming(c, s, now, live, pos, di); t.motion.mode == Homing || t.watch.cmd == 0
    ensures var t := UpdateHoming(c, s, now, live, pos, di); ReleaseIfBlocked(c, t, now, live, pos, di) == t
  {
    hide HomingTimedOut, LimitReached, WindowRestarts, StallConfirmed, BasePositionSpeed, ScaledPositionSpeed, Abs,
         AtLowerLimit;
  }

  /** Every tick that homes, in any run: it looks down, at the configured speed; the origin
      is set exactly if the time since the attempt began is not up and fresh data shows the
      bottom or a standstill; and only then, or when the time is up, does the homing end,
      with a stop. */
  lemma HomingTickExactly(c: Config, from: int, evs: seq<Timed>, e: Timed)
    requires ValidConfig(c) && Chronological(from, evs + [e]) && e.ev.Poll?
    requires AtMotion(c, Exec(c, Init(c, from), evs), e).motion.mode == Homing
    ensures var s := Exec(c, Init(c, from), evs);
            var u, t := AtMotion(c, s, e), Step(c, s, e);
            var began := Began(c, s, BeganOver(c, Init(c, from), 0, evs), e);
            var late := e.at - began > c.homeTimeout;
            var there := Fresh(c, t.link, e.at)
                         && (AtTheBottom(c, t.link.di) || StoodStill(c, u.homing, t.link.position, e.at));
            && Downward(c, u.homing.dirSpeed) && HomingFrames(c, u.sent, t.sent, e.at, u.homing.dirSpeed)
            && Origins(t.sent) == Origins(s.sent) + (if !late && there then 1 else 0)
            && (t.motion.mode == Homing <==> !late && !there)
            && (t.motion.mode != Homing ==> t.motion.mode == Manual && LastVelocity(t.sent) == 0)
            && (t.motion.homed <==> s.motion.homed || (!late && there))
  {
    hide Init, Step, Origins, PollAlarm, Fresh, AtTheBottom, StoodStill, Downward, HomingFrames, AutoHomes,
         UpdateHoming, HomingVelocity, AtLowerLimit, Chronological, Originated, OriginOrdered, LastVelocity;
    Before(from, evs, e);
    var s := Exec(c, Init(c, from), evs);
    ReachBoth(c, from, evs, e);
    InitInv(c, from);
    InitIdle(c, from);
    RunHomesDown(c, Init(c, from), from, evs);
    RunDates(c, Init(c, from), from, 0, evs);
    AtMotionDown(c, s, Clock(from, evs), e);
    AlarmHalfSetsNoOrigin(c, s, e.at, e.ev.chunk);
    StepKeeps(c, s, Clock(from, evs), e);
    TickLinks(c, s, e);
    var u := AtMotion(c, s, e);
    MotionDates(c, s, Clock(from, evs), e, BeganOver(c, Init(c, from), 0, evs));
    var l := u.link;
    HomingOutcome(c, u, e.at, Fresh(c, l, e.at), l.position, l.di);
    NoRelease(c, u, e.at, Fresh(c, l, e.at), l.position, l.di);
    TickIsHoming(c, s, e);
  }

  lemma Before(from: int, evs: seq<Timed>, e: Timed)
    requires Chronological(from, evs + [e])
    ensures Chronological(from, evs) && 0 < from
  {
    var all := evs + [e];
    forall i | 0 <= i < |evs|
      ensures evs[i] == all[i]
    {
    }
  }

  lemma MotionDates(c: Config, s: State, from: int, e: Timed, b: int)
    requires ValidConfig(c) && Inv(c, s, from) && from <= e.at && Dated(s, b) && e.ev.Poll?
    ensures var u := AtMotion(c, s, e);
            u.motion.mode == Homing ==> u.homing.start == Began(c, s, b, e) && u.motion.homed == s.motion.homed
  {
    hide PollAlarm, HomingVelocity, LogInv, CounterInv, ModeInv, TimeInv, HomingStarts;
    var t := PollAlarm(c, s, e.at, e.ev.chunk);
    AlarmHalfHomed(c, s, e.at, e.ev.chunk);
    if !AutoHomes(c, t, e.at) && t.motion.mode == Homing {
      AlarmHalfHoming(c, s, from, e);
    }
  }

  lemma AlarmHalfHomed(c: Config, s: State, now: int, chunk: seq<byte>)
    ensures PollAlarm(c, s, now, chunk).motion.homed == s.motion.homed
  {
    hide Receive, Fresh, Alarm;
  }

  lemma TickIsHoming(c: Config, s: State, e: Timed)
    requires e.ev.Poll? && AtMotion(c, s, e).motion.mode == Homing
    requires var u := AtMotion(c, s, e);
             var live := Fresh(c, u.link, e.at);
             var t := UpdateHoming(c, u, e.at, live, u.link.position, u.link.di);
             ReleaseIfBlocked(c, t, e.at, live, u.link.position, u.link.di) == t
    ensures var u := AtMotion(c, s, e);
            && Step(c, s, e) == UpdateHoming(c, u, e.at, Fresh(c, u.link, e.at), u.link.position, u.link.di)
            && u.link == Step(c, s, e).link && u.sent == PollAlarm(c, s, e.at, e.ev.chunk).sent
  {
    hide PollAlarm, AutoHomes, UpdateHoming, Fresh, AtLowerLimit, HomingVelocity, ReleaseIfBlocked;
    var u := AtMotion(c, s, e);
    LiftAlarm.HomingFrame(c, u, e.at, Fresh(c, u.link, e.at), u.link.position, u.link.di);
  }

  /* ---- the target of a move ---- */

  /** Where the last move among these frames leads, from position pos; `aim` if there is
      none. */
  function AimAfter(aim: int, added: seq<Sent>, pos: int): int {
    if added == [] then aim
    else
      match added[|added| - 1].cmd
      case AbsPosition(counts) => counts
      case IncPosition(counts) => pos + counts
      case _ => AimAfter(aim, added[..|added| - 1], pos)
  }

  predicate Moves(cmd: Command) { cmd.AbsPosition? || cmd.IncPosition? }

  predicate NoMove(added: seq<Sent>) { forall i :: 0 <= i < |added| ==> !Moves(added[i].cmd) }

  lemma {:induction false} AimKept(aim: int, added: seq<Sent>, pos: int)
    requires NoMove(added)
    ensures AimAfter(aim, added, pos) == aim
    decreases |added|
  {
    if added != [] {
      AimKept(aim, added[..|added| - 1], pos);
    }
  }

  lemma {:induction false} AimThen(aim: int, x: seq<Sent>, y: seq<Sent>, pos: int)
    ensures AimAfter(aim, x + y, pos) == AimAfter(AimAfter(aim, x, pos), y, pos)
    decreases |y|
  {
    if y == [] {
      assert x + y == x;
    } else {
      assert (x + y)[..|x + y| - 1] == x + y[..|y| - 1];
      AimThen(aim, x, y[..|y| - 1], pos);
    }
  }

  lemma AimNow(aim: int, x: Sent, pos: int)
    ensures AimAfter(aim, [x], pos)
            == match x.cmd case AbsPosition(counts) => counts case IncPosition(counts) => pos + counts case _ => aim
  {
    assert [x][..0] == [];
  }

  /** A move under way, or pending behind an alarm, has this target. */
  ghost predicate Aimed(s: State, aim: int) {
    && (s.motion.mode == Position ==> s.motion.target == aim)
    && (s.resume.mode == Position ==> s.resume.target == aim)
  }

  /** The frames an event adds. */
  function Added(c: Config, s: State, e: Timed): seq<Sent> {
    var t := Step(c, s, e);
    if |s.sent| <= |t.sent| then t.sent[|s.sent|..] else []
  }

  /** The aim after an event: the drive counts a relative move from the position that was
      last reported when it was sent. */
  function AimStep(c: Config, s: State, aim: int, e: Timed): int {
    AimAfter(aim, Added(c, s, e), Step(c, s, e).link.position)
  }

  function AimOver(c: Config, s: State, aim: int, evs: seq<Timed>): int
    decreases |evs|
  {
    if evs == [] then aim else AimOver(c, Step(c, s, evs[0]), AimStep(c, s, aim, evs[0]), evs[1..])
  }

  /** A clearing alarm resumes the move to its target, or sends nothing. */
  lemma ResumeAims(c: Config, s: State, now: int, pos: int, aim: int)
    requires Aimed(s, aim)
    ensures var t := ResumeAfterAlarm(c, ClearAlarm(s), now, pos);
            s.sent <= t.sent && t.link == s.link && Aimed(t, AimAfter(aim, t.sent[|s.sent|..], pos))
  {
    hide AimAfter;
    var t := ResumeAfterAlarm(c, ClearAlarm(s), now, pos);
    var move := if s.motion.homed then AbsPosition(s.resume.target) else IncPosition(s.resume.target - pos);
    AimNow(aim, Sent(now, move), pos);
    AimKept(aim, [], pos);
    assert t.sent[|s.sent|..] == if t.sent == s.sent then [] else [Sent(now, move)];
  }

  /** A rising alarm makes the move under way the pending one. */
  lemma RaiseAims(c: Config, s: State, now: int, pos: int, aim: int)
    requires Aimed(s, aim)
    ensures var t := RaiseAlarm(s, now);
            && s.sent <= t.sent && t.link == s.link && AimAfter(aim, t.sent[|s.sent|..], pos) == aim && Aimed(t, aim)
  {
    hide AimAfter;
    RaiseTargets(s, now);
    RaiseEffect(s, now);
    AimKept(aim, [Sent(now, Velocity(0))], pos);
    assert RaiseAlarm(s, now).sent[|s.sent|..] == [Sent(now, Velocity(0))];
  }

  lemma AlarmAims(c: Config, s: State, now: int, live: bool, status: byte, pos: int, aim: int)
    requires Aimed(s, aim) && s.link.position == pos
    ensures var t := UpdateAlarm(c, s, now, live, status, pos);
            && s.sent <= t.sent && t.link == s.link
            && Aimed(t, AimAfter(aim, t.sent[|s.sent|..], pos))
  {
    hide Alarm, RaiseAlarm, RequestAlarmReset, ResumeAfterAlarm, ClearAlarm, AimAfter, Aimed;
    if live && !Alarm(status) && s.alarm.active {
      ResumeAims(c, s, now, pos, aim);
    } else {
      var r := if live && Alarm(status) && !s.alarm.active then RaiseAlarm(s, now) else s;
      RaiseAims(c, s, now, pos, aim);
      AimKept(aim, [], pos);
      assert s.sent[|s.sent|..] == [];
      RequestAims(c, r, now, pos, aim);
      var q := RequestAlarmReset(c, r, now, false);
      assert q.sent[|s.sent|..] == r.sent[|s.sent|..] + q.sent[|r.sent|..];
      AimThen(aim, r.sent[|s.sent|..], q.sent[|r.sent|..], pos);
      SameAim(r, q, aim);
    }
  }

  lemma SameAim(s: State, t: State, aim: int)
    requires t.motion == s.motion && t.resume == s.resume
    ensures Aimed(s, aim) ==> Aimed(t, aim)
  {
  }

  lemma RaiseTargets(s: State, now: int)
    ensures var t := RaiseAlarm(s, now);
            && t.link == s.link && t.motion.mode == Manual
            && t.resume == if s.motion.mode == Position
                           then s.resume.(mode := Position, target := s.motion.target) else s.resume
  {
  }

  lemma RequestAims(c: Config, s: State, now: int, pos: int, aim: int)
    ensures var t := RequestAlarmReset(c, s, now, false);
            && s.sent <= t.sent && t == s.(watch := t.watch, alarm := t.alarm, sent := t.sent)
            && AimAfter(aim, t.sent[|s.sent|..], pos) == aim
  {
    var t := RequestAlarmReset(c, s, now, false);
    AimKept(aim, t.sent[|s.sent|..], pos);
  }

  lemma AlarmHalfAims(c: Config, s: State, now: int, chunk: seq<byte>, aim: int)
    requires Aimed(s, aim)
    ensures var t := PollAlarm(c, s, now, chunk);
            && s.sent <= t.sent && Aimed(t, AimAfter(aim, t.sent[|s.sent|..], t.link.position))
  {
    hide UpdateAlarm, Receive, Fresh, AimAfter;
    var t0 := Emit(s, now, MonitorRequest).(link := Receive(c.addresses, s.link, now, chunk));
    var pos := t0.link.position;
    AlarmAims(c, t0, now, Fresh(c, t0.link, now), t0.link.status, pos, aim);
    var t := PollAlarm(c, s, now, chunk);
    assert t.sent[|s.sent|..] == [Sent(now, MonitorRequest)] + t.sent[|t0.sent|..];
    AimThen(aim, [Sent(now, MonitorRequest)], t.sent[|t0.sent|..], pos);
    AimNow(aim, Sent(now, MonitorRequest), pos);
  }

  lemma HomingSendsNoMove(c: Config, s: State, now: int, live: bool, pos: int, di: byte)
    requires s.motion.mode == Homing
    ensures var t := UpdateHoming(c, s, now, live, pos, di);
            && s.sent <= t.sent && NoMove(t.sent[|s.sent|..]) && t.motion.mode != Position
            && t.resume.mode == s.resume.mode && t.resume.target == s.resume.target
  {
    hide UpdateHoming, Origins, AtTheBottom, StoodStill, HomingFrames, NoMove;
    HomingResume(c, s, now, live, pos, di);
    HomingOutcome(c, s, now, live, pos, di);
    NoMoveAmong(c, s.sent, UpdateHoming(c, s, now, live, pos, di).sent, now, s.homing.dirSpeed);
  }

  lemma NoMoveAmong(c: Config, before: seq<Sent>, after: seq<Sent>, now: int, rpm: int)
    requires HomingFrames(c, before, after, now, rpm)
    ensures before <= after && NoMove(after[|before|..])
  {
  }

  lemma HomingResume(c: Config, s: State, now: int, live: bool, pos: int, di: byte)
    ensures var t := UpdateHoming(c, s, now, live, pos, di);
            t.resume.mode == s.resume.mode && t.resume.target == s.resume.target
  {
    hide HomingTimedOut, LimitReached, WindowRestarts, StallConfirmed, BasePositionSpeed, ScaledPositionSpeed;
  }

  lemma ReleaseSendsNoMove(c: Config, s: State, now: int, live: bool, pos: int, di: byte)
    ensures var t := ReleaseIfBlocked(c, s, now, live, pos, di);
            s.sent <= t.sent && NoMove(t.sent[|s.sent|..]) && t == s.(watch := t.watch, sent := t.sent)
  {
    hide AtLowerLimit, Abs;
  }

  /** The motion half sends no move and sets no target. */
  lemma MotionHalfAims(c: Config, s: State, now: int)
    ensures var t := PollMotion(c, s, now);
            && s.sent <= t.sent && NoMove(t.sent[|s.sent|..])
            && (t.motion.mode == Position ==> s.motion == t.motion)
            && (t.resume.mode == Position ==> s.resume.mode == Position && t.resume.target == s.resume.target)
  {
    hide HomingVelocity, Fresh, AutoHomes, Abs, UpdateHoming, ReleaseIfBlocked;
    var l, live := s.link, Fresh(c, s.link, now);
    var t := if AutoHomes(c, s, now) then StartHoming(c, s, now) else s;
    if t.motion.mode == Homing {
      HomingSendsNoMove(c, t, now, live, l.position, l.di);
    }
    var u := UpdateMotion(c, t, now, live, l.position, l.di);
    ReleaseSendsNoMove(c, u, now, live, l.position, l.di);
    var v := PollMotion(c, s, now);
    assert v.sent[|s.sent|..] == u.sent[|s.sent|..] + v.sent[|u.sent|..];
  }

  lemma MoveAims(c: Config, s: State, e: Timed, aim: int)
    requires Aimed(s, aim) && (e.ev.PositionCmd? || e.ev.IncPositionCmd?)
    ensures s.sent <= Step(c, s, e).sent && Aimed(Step(c, s, e), AimStep(c, s, aim, e))
  {
    hide AimAfter;
    var t := Step(c, s, e);
    var cmd := if e.ev.PositionCmd? then AbsPosition(e.ev.counts) else IncPosition(e.ev.counts);
    AimNow(aim, Sent(e.at, cmd), t.link.position);
    AimKept(aim, [], t.link.position);
    assert t.sent[|s.sent|..] == if t == s then [] else [Sent(e.at, cmd)];
  }

  lemma ManualSendsNoMove(s: State, now: int, rpm: int)
    ensures var t := ManualVelocity(s, now, rpm);
            s.sent <= t.sent && NoMove(t.sent[|s.sent|..]) && t.motion.mode == Manual && t.resume.mode == Manual
  {
  }

  lemma ResetSendsNoMove(c: Config, s: State, now: int, go: bool)
    ensures var t := OnReset(c, s, now, go);
            s.sent <= t.sent && NoMove(t.sent[|s.sent|..]) && t.motion == s.motion
            && t.resume.mode == s.resume.mode && t.resume.target == s.resume.target
  {
  }

  lemma HomeSendsNoMove(c: Config, s: State, now: int, start: bool)
    ensures var t := OnHome(c, s, now, start);
            && s.sent <= t.sent && NoMove(t.sent[|s.sent|..])
            && (t.motion.mode == Position ==> t.motion == s.motion) && (t.resume.mode == Manual || t.resume == s.resume)
  {
    hide HomingVelocity, HomingStarts;
  }

  lemma CommandAims(c: Config, s: State, e: Timed, aim: int)
    requires Aimed(s, aim) && !e.ev.Poll?
    ensures s.sent <= Step(c, s, e).sent && Aimed(Step(c, s, e), AimStep(c, s, aim, e))
  {
    hide ManualUpSpeed, ToInt16, AimAfter, OnReset, OnHome, ManualVelocity, OnPosition, OnIncPosition;
    match e.ev
    case PositionCmd(_) => MoveAims(c, s, e, aim);
    case IncPositionCmd(_) => MoveAims(c, s, e, aim);
    case TextCommand(_) =>
      var up := ManualUpSpeed(c, s.motion.homed);
      ManualSendsNoMove(s, e.at, up);
      ManualSendsNoMove(s, e.at, ToInt16(-up));
      ManualSendsNoMove(s, e.at, 0);
      AimKept(aim, Added(c, s, e), Step(c, s, e).link.position);
    case VelocityCmd(rpm) =>
      ManualSendsNoMove(s, e.at, rpm);
      AimKept(aim, Added(c, s, e), Step(c, s, e).link.position);
    case Home(start) =>
      HomeSendsNoMove(c, s, e.at, start);
      AimKept(aim, Added(c, s, e), Step(c, s, e).link.position);
    case Reset(go) =>
      ResetSendsNoMove(c, s, e.at, go);
      AimKept(aim, Added(c, s, e), Step(c, s, e).link.position);
  }

  lemma StepAims(c: Config, s: State, e: Timed, aim: int)
    requires Aimed(s, aim)
    ensures Aimed(Step(c, s, e), AimStep(c, s, aim, e))
  {
    hide PollAlarm, PollMotion, AimAfter, OnText, ManualVelocity, OnPosition, OnIncPosition, OnHome, OnReset;
    if e.ev.Poll? {
      var t, u := PollAlarm(c, s, e.at, e.ev.chunk), Step(c, s, e);
      AlarmHalfAims(c, s, e.at, e.ev.chunk, aim);
      MotionHalfAims(c, t, e.at);
      TickLinks(c, s, e);
      assert u.sent[|s.sent|..] == t.sent[|s.sent|..] + u.sent[|t.sent|..];
      AimThen(aim, t.sent[|s.sent|..], u.sent[|t.sent|..], t.link.position);
      AimKept(AimAfter(aim, t.sent[|s.sent|..], t.link.position), u.sent[|t.sent|..], t.link.position);
    } else {
      CommandAims(c, s, e, aim);
    }
  }

  lemma {:induction false} RunAims(c: Config, s: State, aim: int, evs: seq<Timed>)
    requires Aimed(s, aim)
    ensures Aimed(Exec(c, s, evs), AimOver(c, s, aim, evs))
    decreases |evs|
  {
    hide Step, Aimed, AimStep;
    if evs != [] {
      StepAims(c, s, evs[0], aim);
      RunAims(c, Step(c, s, evs[0]), AimStep(c, s, aim, evs[0]), evs[1..]);
    }
  }

  /** Over every run the target of a move under way, or of one that waits for an alarm to
      clear, is where the last move frame sent leads: the position it names, or the
      distance it names from the position reported last before it. */
  lemma TargetIsLastMove(c: Config, from: int, evs: seq<Timed>)
    ensures Aimed(Exec(c, Init(c, from), evs), AimOver(c, Init(c, from), 0, evs))
  {
    InitIdle(c, from);
    RunAims(c, Init(c, from), 0, evs);
  }

  /* ---- when a move ends ---- */

  /** The alarm state after a tick is the drive's alarm bit if the data is fresh, and as
      before if not; nothing but a tick changes it. */
  lemma AlarmFollowsDrive(c: Config, s: State, e: Timed)
    ensures var t := Step(c, s, e);
            t.alarm.active
            == if e.ev.Poll? && Fresh(c, t.link, e.at) then Bits.Bit(t.link.status as nat, 0) else s.alarm.active
  {
    hide Receive, Fresh, ManualUpSpeed, ToInt16, HomingSpeed, PollMotion, RaiseAlarm, RequestAlarmReset, OnReset;
    if e.ev.Poll? {
      var t0 := Emit(s, e.at, MonitorRequest).(link := Receive(c.addresses, s.link, e.at, e.ev.chunk));
      var live := Fresh(c, t0.link, e.at);
      TickLinks(c, s, e);
      MotionFrame(c, PollAlarm(c, s, e.at, e.ev.chunk), e.at);
      RaiseEffect(t0, e.at);
      RequestEffect(c, RaiseAlarm(t0, e.at), e.at, false, 0);
      RequestEffect(c, t0, e.at, false, 0);
      LinkKept(c, t0, e.at, live, t0.link.status, t0.link.position);
    } else if e.ev.Reset? {
      ResetKeepsAlarm(c, s, e.at, e.ev.go);
    }
  }

  lemma ResetKeepsAlarm(c: Config, s: State, now: int, go: bool)
    ensures OnReset(c, s, now, go).alarm.active == s.alarm.active
  {
  }

  /** A tick ends a move that is under way exactly when the automatic homing takes over or
      fresh data shows an alarm or a position within the tolerance of the target; else the
      move goes on. */
  lemma MoveEndsExactly(c: Config, s: State, from: int, e: Timed)
    requires ValidConfig(c) && Inv(c, s, from) && from <= e.at && e.ev.Poll? && s.motion.mode == Position
    ensures var t := Step(c, s, e);
            var live := Fresh(c, t.link, e.at);
            var arrived := live && Abs(s.motion.target - t.link.position) <= c.tolerance;
            var homes := Begins(c, s, e);
            && (t.motion.mode == Position <==> !(live && Bits.Bit(t.link.status as nat, 0)) && !homes && !arrived)
            && (t.motion.mode == Position ==> t.motion == s.motion && t.resume.cycles == s.resume.cycles)
            && (!homes && !t.alarm.active && arrived ==> t.motion == s.motion.(mode := Manual) && t.resume.cycles == 0)
  {
    hide Receive, Fresh, PollMotion, RaiseAlarm, RequestAlarmReset, Abs, LogInv, CounterInv, TimeInv, AutoHomes;
    var t0 := Emit(s, e.at, MonitorRequest).(link := Receive(c.addresses, s.link, e.at, e.ev.chunk));
    var t := PollAlarm(c, s, e.at, e.ev.chunk);
    AlarmFollowsDrive(c, s, e);
    TickLinks(c, s, e);
    LinkKept(c, t0, e.at, Fresh(c, t0.link, e.at), t0.link.status, t0.link.position);
    RaiseEffect(t0, e.at);
    RequestEffect(c, RaiseAlarm(t0, e.at), e.at, false, 0);
    MotionFrame(c, t, e.at);
    if t.alarm.active {
      ManualMotion(c, t, e.at) by { NoHomingInAlarm(c, t, e.at); }
    } else {
      IdleAlarm(c, t0, e.at, Fresh(c, t0.link, e.at), t0.link.status, t0.link.position);
      MoveTick(c, t, e.at);
    }
  }

  lemma NoHomingInAlarm(c: Config, s: State, now: int)
    requires s.alarm.active
    ensures !AutoHomes(c, s, now)
  {
  }

  lemma MoveTick(c: Config, s: State, now: int)
    requires s.motion.mode == Position
    ensures var t := PollMotion(c, s, now);
            var arrived := Fresh(c, s.link, now) && Abs(s.motion.target - s.link.position) <= c.tolerance;
            if AutoHomes(c, s, now) then t.motion.mode != Position
            else if arrived then t.motion == s.motion.(mode := Manual) && t.resume.cycles == 0
            else t.motion == s.motion && t.resume.cycles == s.resume.cycles
  {
    hide Fresh, AutoHomes, Abs, UpdateHoming, AtLowerLimit, HomingVelocity, ReleaseIfBlocked;
    var l, live := s.link, Fresh(c, s.link, now);
    var t := if AutoHomes(c, s, now) then StartHoming(c, s, now) else s;
    if t.motion.mode == Homing {
      HomingSendsNoMove(c, t, now, live, l.position, l.di);
    }
    ReleaseSendsNoMove(c, UpdateMotion(c, t, now, live, l.position, l.di), now, live, l.position, l.di);
  }

  /* ---- what each command does ---- */

  /** Ends in manual mode with this speed on the wire, and nothing to resume. */
  predicate Drives(s: State, t: State, now: int, rpm: int) {
    && t.sent == s.sent + [Sent(now, Velocity(rpm))] && t.motion == s.motion.(mode := Manual)
    && t.resume.mode == Manual && t.link == s.link && t.alarm == s.alarm && t.pendingHome == s.pendingHome
  }

  /** Rounded to the nearest, halves away from zero. */
  predicate Nearest(exact: real, n: int) {
    if exact >= 0.0 then exact - 0.5 < n as real <= exact + 0.5 else exact - 0.5 <= n as real < exact + 0.5
  }

  /** The manual speed: up as configured, scaled once the origin is set, rounded to the
      nearest and held in sixteen bits. */
  predicate UpSpeed(c: Config, homed: bool, rpm: int) {
    var exact := c.upSpeed as real * (if homed then c.scale else 1.0);
    if exact >= 32767.5 then rpm == 32767
    else if exact <= -32768.5 then rpm == -32768
    else Nearest(exact, rpm)
  }

  lemma ManualUpSpeedMeans(c: Config, homed: bool)
    ensures UpSpeed(c, homed, ManualUpSpeed(c, homed)) && -0x8000 <= ManualUpSpeed(c, homed) < 0x8000
  {
  }

  /** A text command drives up, down or stops, and any other text does nothing. */
  lemma TextDrives(c: Config, s: State, now: int, text: string)
    ensures var t := Step(c, s, Timed(now, TextCommand(text)));
            if text == "up" then exists up :: UpSpeed(c, s.motion.homed, up) && Drives(s, t, now, up)
            else if text == "down" then
              exists up :: UpSpeed(c, s.motion.homed, up) && Drives(s, t, now, if up == -0x8000 then up else -up)
            else if text == "stop" then Drives(s, t, now, 0)
            else t == s
  {
    ManualUpSpeedMeans(c, s.motion.homed);
    hide ManualUpSpeed, UpSpeed;
  }

  /** So does a speed command. */
  lemma SpeedDrives(c: Config, s: State, now: int, rpm: int)
    ensures Drives(s, Step(c, s, Timed(now, VelocityCmd(rpm))), now, rpm)
  {
  }

  /** A move command is sent as it is, and becomes the move under way, unless there is an
      alarm or, for an absolute one, no origin; then it changes nothing. */
  lemma MoveIsSent(c: Config, s: State, now: int, counts: int)
    ensures var t := Step(c, s, Timed(now, PositionCmd(counts)));
            if c.positionControl && s.motion.homed && !s.alarm.active then
              && t.sent == s.sent + [Sent(now, AbsPosition(counts))]
              && t.motion.mode == Position && t.resume.mode == Manual
            else t == s
    ensures var t := Step(c, s, Timed(now, IncPositionCmd(counts)));
            if c.positionControl && !s.alarm.active then
              && t.sent == s.sent + [Sent(now, IncPosition(counts))]
              && t.motion.mode == Position && t.resume.mode == Manual
            else t == s
  {
  }

  /** A homing request is honoured exactly without an alarm and with a speed other than
      zero; giving it up stops a homing under way and forgets any that waits. */
  lemma HomeCommand(c: Config, s: State, now: int)
    requires c.positionControl
    ensures var t := Step(c, s, Timed(now, Home(true)));
            if !s.alarm.active && (c.homeSpeed > 0 || c.upSpeed != 0)
            then t.motion == s.motion.(mode := Homing) && t.homing.start == now && !t.homing.tracking
                 && !t.pendingHome && t.resume.mode == Manual && t.sent == s.sent
            else t == s
    ensures var t := Step(c, s, Timed(now, Home(false)));
            && !t.pendingHome && t.resume.mode == Manual
            && if s.motion.mode == Homing
               then t.motion == s.motion.(mode := Manual) && t.sent == s.sent + [Sent(now, Velocity(0))]
               else t.motion == s.motion && t.sent == s.sent
  {
    hide HomingVelocity;
  }

  /** A reset request sends one alarm reset, after a stop if an alarm is active, whatever
      the automatic resets have used up. */
  lemma ResetCommand(c: Config, s: State, now: int)
    ensures var t := Step(c, s, Timed(now, Reset(true)));
            && t.sent == s.sent + (if s.alarm.active then [Sent(now, Velocity(0))] else []) + [Sent(now, AlarmReset)]
            && t.motion == s.motion && t.alarm.active == s.alarm.active && !t.alarm.exhausted
            && t.alarm.lastReset == now && t.resume == s.resume.(cycles := 0)
            && t.alarm.attempts == if s.alarm.active then 1 else 0
    ensures Step(c, s, Timed(now, Reset(false))) == s
  {
  }

  /* ---- the automatic homing at start-up ---- */

  /** This event uses up the automatic homing: a homing begins or is called off. */
  predicate EndsWaiting(c: Config, s: State, e: Timed) {
    (c.positionControl && e.ev == Home(false)) || Begins(c, s, e)
  }

  predicate EndsWaitingAt(c: Config, s: State, evs: seq<Timed>, i: nat)
    requires i < |evs|
  {
    EndsWaiting(c, Exec(c, s, evs[..i]), evs[i])
  }

  lemma StepWaits(c: Config, s: State, e: Timed)
    ensures Step(c, s, e).pendingHome <==> s.pendingHome && !EndsWaiting(c, s, e)
  {
    hide Receive, Fresh, HomingVelocity, ManualUpSpeed, ToInt16, HomingSpeed, UpdateHoming, ReleaseIfBlocked,
         UpdateAlarm;
    if e.ev.Poll? {
      var t := PollAlarm(c, s, e.at, e.ev.chunk);
      var t0 := Emit(s, e.at, MonitorRequest).(link := Receive(c.addresses, s.link, e.at, e.ev.chunk));
      var live := Fresh(c, t0.link, e.at);
      AlarmWaits(c, t0, e.at, live, t0.link.status, t0.link.position);
      var u := AtMotion(c, s, e);
      HomingWaits(c, u, e.at, Fresh(c, t.link, e.at), t.link.position, t.link.di);
      ReleaseSendsNoMove(c, UpdateMotion(c, u, e.at, Fresh(c, t.link, e.at), t.link.position, t.link.di), e.at,
                         Fresh(c, t.link, e.at), t.link.position, t.link.di);
    }
  }

  lemma AlarmWaits(c: Config, s: State, now: int, live: bool, status: byte, pos: int)
    ensures UpdateAlarm(c, s, now, live, status, pos).pendingHome == s.pendingHome
  {
    hide Alarm;
  }

  lemma HomingWaits(c: Config, s: State, now: int, live: bool, pos: int, di: byte)
    ensures UpdateHoming(c, s, now, live, pos, di).pendingHome == s.pendingHome
  {
    hide LimitReached, WindowRestarts, StallConfirmed, HomingTimedOut, BasePositionSpeed, ScaledPositionSpeed;
  }

  lemma {:induction false} RunWaits(c: Config, s: State, evs: seq<Timed>)
    ensures Exec(c, s, evs).pendingHome
            <==> s.pendingHome && forall i: nat :: i < |evs| ==> !EndsWaitingAt(c, s, evs, i)
    decreases |evs|
  {
    hide Step, EndsWaiting;
    if evs != [] {
      var t, rest := Step(c, s, evs[0]), evs[1..];
      StepWaits(c, s, evs[0]);
      RunWaits(c, t, rest);
      assert evs[..0] == [];
      assert EndsWaitingAt(c, s, evs, 0) == EndsWaiting(c, s, evs[0]);
      forall i: nat | 0 < i < |evs|
        ensures EndsWaitingAt(c, s, evs, i) == EndsWaitingAt(c, t, rest, i - 1)
      {
        assert evs[..i][0] == evs[0] && evs[..i][1..] == rest[..i - 1];
        assert Exec(c, s, evs[..i]) == Exec(c, t, rest[..i - 1]);
      }
      forall i: nat | i < |rest|
        ensures EndsWaitingAt(c, t, rest, i) == EndsWaitingAt(c, s, evs, i + 1)
      {
        assert EndsWaitingAt(c, s, evs, i + 1) == EndsWaitingAt(c, t, rest, i + 1 - 1);
      }
    }
  }

  /** A tick homes by itself exactly if that is configured, no homing began and none was
      called off before, the data is fresh, there is no alarm, and a speed is configured:
      so it happens at most once in a run. */
  lemma AutoHomesOnce(c: Config, from: int, evs: seq<Timed>, e: Timed)
    requires e.ev.Poll?
    ensures var s := Exec(c, Init(c, from), evs);
            var t := Step(c, s, e);
            Begins(c, s, e) <==>
              && c.positionControl && c.autoHome
              && (forall i: nat :: i < |evs| ==> !EndsWaitingAt(c, Init(c, from), evs, i))
              && Fresh(c, t.link, e.at) && !t.alarm.active && (c.homeSpeed > 0 || c.upSpeed != 0)
  {
    hide PollAlarm, PollMotion, Fresh;
    var s := Exec(c, Init(c, from), evs);
    var t := PollAlarm(c, s, e.at, e.ev.chunk);
    RunWaits(c, Init(c, from), evs);
    AlarmHalfWaits(c, s, e.at, e.ev.chunk);
    TickLinks(c, s, e);
    MotionFrame(c, t, e.at);
  }

  lemma AlarmHalfWaits(c: Config, s: State, now: int, chunk: seq<byte>)
    ensures PollAlarm(c, s, now, chunk).pendingHome == s.pendingHome
  {
    hide UpdateAlarm, Receive, Fresh;
    var t0 := Emit(s, now, MonitorRequest).(link := Receive(c.addresses, s.link, now, chunk));
    AlarmWaits(c, t0, now, Fresh(c, t0.link, now), t0.link.status, t0.link.position);
  }

  /* ---- the speed of moves ---- */

  /** The speed of moves last sent to the drive, -1 if none was. */
  function MoveSpeed(log: seq<Sent>): int {
    if log == [] then -1
    else if log[|log| - 1].cmd.PositionVelocity? then log[|log| - 1].cmd.rpm
    else MoveSpeed(log[..|log| - 1])
  }

  predicate NoSpeed(added: seq<Sent>) { forall i :: 0 <= i < |added| ==> !added[i].cmd.PositionVelocity? }

  lemma {:induction false} SpeedKept(log: seq<Sent>, added: seq<Sent>)
    requires NoSpeed(added)
    ensures MoveSpeed(log + added) == MoveSpeed(log)
    decreases |added|
  {
    if added == [] {
      assert log + added == log;
    } else {
      assert (log + added)[..|log + added| - 1] == log + added[..|added| - 1];
      SpeedKept(log, added[..|added| - 1]);
    }
  }

  lemma SpeedSent(log: seq<Sent>, now: int, rpm: int)
    ensures MoveSpeed(log + [Sent(now, PositionVelocity(rpm))]) == rpm
  {
  }

  /** None without a speed for moves, and else the configured speed, scaled once the origin
      is set if the scale is above one; rounded to the nearest and held below 32768. */
  predicate SpeedOfMoves(c: Config, homed: bool, rpm: int) {
    var speed := if c.posiCtrlVel > 0 then c.posiCtrlVel else Abs(c.upSpeed);
    if !c.positionControl || speed == 0 then rpm == -1
    else if !homed || c.scale <= 1.0 then rpm == speed % 0x1_0000
    else if speed as real * c.scale >= 32767.5 then rpm == 32767
    else Nearest(speed as real * c.scale, rpm)
  }

  ghost predicate SpeedTold(c: Config, s: State) { SpeedOfMoves(c, s.motion.homed, MoveSpeed(s.sent)) }

  /** Nothing about speeds was sent and the origin is as it was. */
  ghost predicate SpeedLeft(s: State, t: State) {
    s.sent <= t.sent && NoSpeed(t.sent[|s.sent|..]) && t.motion.homed == s.motion.homed
  }

  lemma LeftIsTold(c: Config, s: State, t: State)
    requires SpeedTold(c, s) && SpeedLeft(s, t)
    ensures SpeedTold(c, t)
  {
    hide SpeedOfMoves, MoveSpeed;
    SpeedKept(s.sent, t.sent[|s.sent|..]);
    assert t.sent == s.sent + t.sent[|s.sent|..];
  }

  lemma ScaledMeans(c: Config, homed: bool, rpm: int)
    requires c.scale >= 1.0
    ensures BasePositionSpeed(c) > 0 && c.scale > 1.0 ==> SpeedOfMoves(c, true, ScaledPositionSpeed(c))
    ensures !(BasePositionSpeed(c) > 0 && c.scale > 1.0) && SpeedOfMoves(c, homed, rpm) ==> SpeedOfMoves(c, true, rpm)
  {
  }

  lemma CompletedTold(c: Config, s: State, now: int)
    requires c.scale >= 1.0 && SpeedTold(c, s)
    ensures SpeedTold(c, CompleteHoming(c, s, now))
  {
    hide MoveSpeed, CompleteHoming, BasePositionSpeed, ScaledPositionSpeed, SpeedOfMoves;
    Completed(c, s, now);
    ScaledMeans(c, s.motion.homed, MoveSpeed(s.sent));
    var stop := [Sent(now, Velocity(0)), Sent(now, OriginReset)];
    SpeedKept(s.sent, stop);
    SpeedSent(s.sent + stop, now, ScaledPositionSpeed(c));
    assert s.sent + stop + [] == s.sent + stop;
  }

  lemma HomingTold(c: Config, s: State, now: int, live: bool, pos: int, di: byte)
    requires c.scale >= 1.0 && SpeedTold(c, s)
    ensures SpeedTold(c, UpdateHoming(c, s, now, live, pos, di))
  {
    hide HomingTimedOut, LimitReached, WindowRestarts, StallConfirmed, CompleteHoming, MoveSpeed, SpeedTold;
    var u := SendVelocity(s, now, s.homing.dirSpeed);
    SendLeft(s, now, 0);
    SendLeft(s, now, s.homing.dirSpeed);
    LeftIsTold(c, s, u);
    CompletedTold(c, s, now);
    CompletedTold(c, u, now);
    var t := UpdateHoming(c, s, now, live, pos, di);
    if SpeedLeft(s, t) { LeftIsTold(c, s, t); }
  }

  lemma SendLeft(s: State, now: int, rpm: int)
    ensures SpeedLeft(s, SendVelocity(s, now, rpm))
  {
  }

  lemma RequestLeft(c: Config, s: State, now: int, manual: bool)
    ensures SpeedLeft(s, RequestAlarmReset(c, s, now, manual))
  {
  }

  lemma RaiseLeft(s: State, now: int)
    ensures SpeedLeft(s, RaiseAlarm(s, now))
  {
  }

  lemma ResumeLeft(c: Config, s: State, now: int, pos: int)
    ensures SpeedLeft(s, ResumeAfterAlarm(c, ClearAlarm(s), now, pos))
  {
  }

  lemma LeftThrough(s: State, t: State, u: State)
    requires SpeedLeft(s, t) && SpeedLeft(t, u)
    ensures SpeedLeft(s, u)
  {
    assert u.sent[|s.sent|..] == t.sent[|s.sent|..] + u.sent[|t.sent|..];
  }

  lemma AlarmLeft(c: Config, s: State, now: int, live: bool, status: byte, pos: int)
    ensures SpeedLeft(s, UpdateAlarm(c, s, now, live, status, pos))
  {
    hide Alarm, SpeedLeft, RaiseAlarm, RequestAlarmReset, ResumeAfterAlarm;
    ResumeLeft(c, s, now, pos);
    RaiseLeft(s, now);
    NothingLeft(s, s);
    var r := RaiseAlarm(s, now);
    RequestLeft(c, s, now, false);
    RequestLeft(c, r, now, false);
    LeftThrough(s, r, RequestAlarmReset(c, r, now, false));
  }

  lemma ManualLeft(s: State, now: int, rpm: int)
    ensures SpeedLeft(s, ManualVelocity(s, now, rpm))
  {
  }

  lemma MoveLeft(s: State, now: int, counts: int)
    ensures SpeedLeft(s, OnPosition(s, now, counts)) && SpeedLeft(s, OnIncPosition(s, now, counts))
  {
  }

  lemma HomeLeft(c: Config, s: State, now: int, start: bool)
    ensures SpeedLeft(s, OnHome(c, s, now, start))
  {
    hide HomingVelocity, HomingStarts;
  }

  lemma ResetLeavesSpeed(c: Config, s: State, now: int, go: bool)
    ensures SpeedLeft(s, OnReset(c, s, now, go))
  {
    hide RequestAlarmReset, NoSpeed;
    var t := ClearCycles(s.(alarm := s.alarm.(attempts := 0, exhausted := false)));
    RequestLeft(c, t, now, true);
    OneLeft(s, now, AlarmReset);
    NothingLeft(s, s);
  }

  lemma OneLeft(s: State, now: int, cmd: Command)
    requires !cmd.PositionVelocity?
    ensures NoSpeed((s.sent + [Sent(now, cmd)])[|s.sent|..])
  {
  }

  lemma CommandLeavesSpeed(c: Config, s: State, e: Timed)
    requires !e.ev.Poll?
    ensures SpeedLeft(s, Step(c, s, e))
  {
    hide ManualUpSpeed, ToInt16, SpeedLeft, ManualVelocity, OnPosition, OnIncPosition, OnHome, OnReset;
    NothingLeft(s, s);
    match e.ev
    case TextCommand(_) =>
      var up := ManualUpSpeed(c, s.motion.homed);
      ManualLeft(s, e.at, up);
      ManualLeft(s, e.at, ToInt16(-up));
      ManualLeft(s, e.at, 0);
    case VelocityCmd(rpm) => ManualLeft(s, e.at, rpm);
    case PositionCmd(counts) => MoveLeft(s, e.at, counts);
    case IncPositionCmd(counts) => MoveLeft(s, e.at, counts);
    case Home(start) => HomeLeft(c, s, e.at, start);
    case Reset(go) => ResetLeavesSpeed(c, s, e.at, go);
  }

  lemma StepTold(c: Config, s: State, e: Timed)
    requires c.scale >= 1.0 && SpeedTold(c, s)
    ensures SpeedTold(c, Step(c, s, e))
  {
    hide SpeedTold, UpdateAlarm, UpdateHoming, Receive, Fresh, AutoHomes, HomingVelocity, ReleaseIfBlocked, Abs,
         OnText, ManualVelocity, OnPosition, OnIncPosition, OnHome, OnReset, NoSpeed;
    if e.ev.Poll? {
      var t0 := Emit(s, e.at, MonitorRequest).(link := Receive(c.addresses, s.link, e.at, e.ev.chunk));
      EmitLeft(s, e.at);
      LeftIsTold(c, s, t0);
      AlarmLeft(c, t0, e.at, Fresh(c, t0.link, e.at), t0.link.status, t0.link.position);
      var t := PollAlarm(c, s, e.at, e.ev.chunk);
      LeftIsTold(c, t0, t);
      var u := AtMotion(c, s, e);
      NothingLeft(t, u);
      LeftIsTold(c, t, u);
      var l, live := t.link, Fresh(c, t.link, e.at);
      HomingTold(c, u, e.at, live, l.position, l.di);
      var v := UpdateMotion(c, u, e.at, live, l.position, l.di);
      if u.motion.mode != Homing {
        NothingLeft(u, v);
        LeftIsTold(c, u, v);
      }
      ReleaseLeft(c, v, e.at, live, l.position, l.di);
      LeftIsTold(c, v, Step(c, s, e));
    } else {
      CommandLeavesSpeed(c, s, e);
      LeftIsTold(c, s, Step(c, s, e));
    }
  }

  lemma EmitLeft(s: State, now: int)
    ensures forall l :: SpeedLeft(s, Emit(s, now, MonitorRequest).(link := l))
  {
  }

  lemma NothingLeft(s: State, t: State)
    requires t.sent == s.sent && t.motion.homed == s.motion.homed
    ensures SpeedLeft(s, t)
  {
  }

  lemma ReleaseLeft(c: Config, s: State, now: int, live: bool, pos: int, di: byte)
    ensures SpeedLeft(s, ReleaseIfBlocked(c, s, now, live, pos, di))
  {
    hide AtLowerLimit, Abs;
  }

  lemma {:induction false} RunTold(c: Config, s: State, evs: seq<Timed>)
    requires c.scale >= 1.0 && SpeedTold(c, s)
    ensures SpeedTold(c, Exec(c, s, evs))
    decreases |evs|
  {
    hide Step, SpeedTold;
    if evs != [] {
      StepTold(c, s, evs[0]);
      RunTold(c, Step(c, s, evs[0]), evs[1..]);
    }
  }

  /** Over every run the drive was last told the configured speed for its moves, and the
      scaled one as soon as the origin is set. */
  lemma DriveKnowsSpeed(c: Config, from: int, evs: seq<Timed>)
    requires ValidConfig(c)
    ensures var s := Exec(c, Init(c, from), evs); SpeedOfMoves(c, s.motion.homed, MoveSpeed(s.sent))
  {
    var s := Init(c, from);
    assert SpeedTold(c, s) by {
      if BasePositionSpeed(c) > 0 { SpeedSent([], from, BasePositionSpeed(c) % 0x1_0000); }
    }
    RunTold(c, s, evs);
  }

  /* ---- automatic alarm resets ---- */

  /** The alarm bookkeeping a tick starts from: that of the episode, or a new one. */
  function Episode(s: State): AlarmState {
    if s.alarm.active then s.alarm else AlarmState(true, 0, false, 0)
  }

  /** An automatic reset is due: never one in this episode, or the interval is over. */
  predicate ResetDue(c: Config, a: AlarmState, now: int) {
    c.autoReset && !a.exhausted && (a.lastReset == 0 || now - a.lastReset >= c.resetInterval)
  }

  predicate ResetLeft(c: Config, a: AlarmState) { c.maxAttempts == 0 || a.attempts < c.maxAttempts }

  /** A tick that ends in an alarm sends an automatic reset exactly if the data is fresh, one
      is due and one is left; if one is due and none is left the driver gives up. */
  lemma AutoResetExactly(c: Config, s: State, from: int, e: Timed)
    requires ValidConfig(c) && Inv(c, s, from) && from <= e.at && e.ev.Poll? && Step(c, s, e).alarm.active
    ensures var t, a := Step(c, s, e), Episode(s);
            var sends := Fresh(c, t.link, e.at) && ResetDue(c, a, e.at) && ResetLeft(c, a);
            && Resets(t.sent) == Resets(s.sent) + (if sends then 1 else 0)
            && t.alarm == (if sends then a.(lastReset := e.at, attempts := a.attempts + 1)
                           else if Fresh(c, t.link, e.at) && ResetDue(c, a, e.at) then a.(exhausted := true) else a)
  {
    hide Receive, Fresh, PollMotion, RaiseAlarm, Resets, RequestAlarmReset, Alarm, LogInv, TimeInv;
    var t0 := Emit(s, e.at, MonitorRequest).(link := Receive(c.addresses, s.link, e.at, e.ev.chunk));
    var t := PollAlarm(c, s, e.at, e.ev.chunk);
    var live := Fresh(c, t0.link, e.at);
    TickLinks(c, s, e);
    LinkKept(c, t0, e.at, live, t0.link.status, t0.link.position);
    MotionFrame(c, t, e.at);
    InvLater(c, s, from, e.at);
    PollAlarmKeeps(c, s, e.at, e.ev.chunk);
    ManualMotion(c, t, e.at) by { NoHomingInAlarm(c, t, e.at); }
    RaiseEffect(t0, e.at);
    LogAppend(s.sent, Sent(e.at, MonitorRequest), 0);
    LogAppend(t0.sent, Sent(e.at, Velocity(0)), 0);
    LogAppend(t.sent, Sent(e.at, Velocity(0)), 0);
    var u := if t0.alarm.active then t0 else RaiseAlarm(t0, e.at);
    RequestExactly(c, u, e.at);
    AlarmHalfExactly(c, t0, e.at, live, t0.link.status, t0.link.position);
  }

  lemma RequestExactly(c: Config, s: State, now: int)
    ensures var t := RequestAlarmReset(c, s, now, false);
            var sends := c.maxAttempts <= 0 || s.alarm.attempts < c.maxAttempts;
            && Resets(t.sent) == Resets(s.sent) + (if sends then 1 else 0)
            && t.alarm == if sends then s.alarm.(lastReset := now, attempts := s.alarm.attempts + 1)
                          else s.alarm.(exhausted := true)
  {
    hide Resets;
    LogAppend(s.sent, Sent(now, Velocity(0)), 0);
    LogAppend(s.sent + [Sent(now, Velocity(0))], Sent(now, AlarmReset), 0);
  }

  lemma AlarmHalfExactly(c: Config, s: State, now: int, live: bool, status: byte, pos: int)
    requires UpdateAlarm(c, s, now, live, status, pos).alarm.active
    ensures var u := if s.alarm.active then s else RaiseAlarm(s, now);
            UpdateAlarm(c, s, now, live, status, pos)
            == if live && ResetDue(c, u.alarm, now) then RequestAlarmReset(c, u, now, false) else u
  {
    hide RequestAlarmReset, RaiseAlarm, ResumeAfterAlarm;
    RaiseEffect(s, now);
    RequestKeepsActive(c, s, now);
    ResumeLeavesAlarm(c, ClearAlarm(s), now, pos);
  }

  lemma RequestKeepsActive(c: Config, s: State, now: int)
    ensures RequestAlarmReset(c, s, now, false).alarm.active == s.alarm.active
  {
  }

  lemma ResumeLeavesAlarm(c: Config, s: State, now: int, pos: int)
    ensures ResumeAfterAlarm(c, s, now, pos).alarm == s.alarm
  {
  }
}
