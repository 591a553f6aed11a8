/** What happens after an alarm: the interrupted position move is resumed to the
    target it had, and only so often without the user or the axis getting there. */
module LiftResume {
  import opened Bytes
  import opened LiftFrames
  import opened LiftSpec
  import opened LiftInvariant
  import opened LiftAlarm

  /** A pending resume means an active alarm, and is never a homing: the branch
      of the driver that resumes homing is never taken. */
  lemma PendingResumeMeansAlarm(c: Config, from: int, evs: seq<Timed>)
    requires ValidConfig(c) && Chronological(from, evs)
    ensures var s := Exec(c, Init(c, from), evs);
            && s.resume.mode != Homing
            && (s.resume.mode == Position ==> s.alarm.active && s.motion.mode == Manual && s.watch.cmd == 0)
  {
    hide Init, Step, LogInv, CounterInv, TimeInv;
    InitInv(c, from);
    ExecKeeps(c, Init(c, from), from, evs);
  }

  /* ---- one tick ---- */

  /** Resuming is still within the budget. */
  predicate MayResume(c: Config, r: Resume) {
    r.mode == Position && (c.maxCycles == 0 || r.cycles < c.maxCycles)
  }

  /** An absolute move if the origin is known, else the remaining distance. */
  function ResumeCommand(homed: bool, target: int, pos: int): Command {
    if homed then AbsPosition(target) else IncPosition(target - pos)
  }

  /** The alarm rises in this tick while a position move is under way: the move
      becomes the pending resume. */
  lemma RiseRemembersMove(c: Config, s: State, from: int, e: Timed)
    requires ValidConfig(c) && Inv(c, s, from) && from <= e.at && e.ev.Poll?
    requires s.motion.mode == Position && Step(c, s, e).alarm.active
    ensures Step(c, s, e).resume.mode == Position && Step(c, s, e).resume.target == s.motion.target
  {
    hide LogInv, Receive, UpdateAlarm, RequestAlarmReset, RaiseAlarm, Fresh, PollMotion, Alarm;
    var now := e.at;
    var t0 := Emit(s, now, MonitorRequest).(link := Receive(c.addresses, s.link, now, e.ev.chunk));
    var t2 := PollAlarm(c, s, now, e.ev.chunk);
    MotionFrame(c, t2, now);
    AlarmHalf(c, t0, now, Fresh(c, t0.link, now), t0.link.status, t0.link.position);
    RaiseEffect(t0, now);
    RequestEffect(c, RaiseAlarm(t0, now), now, false, 0);
    ManualMotion(c, t2, now);
  }

  lemma TickKeepsPending(c: Config, s: State, from: int, e: Timed)
    requires ValidConfig(c) && Inv(c, s, from) && from <= e.at && e.ev.Poll?
    requires s.alarm.active && Step(c, s, e).alarm.active
    ensures Step(c, s, e).resume == s.resume && Step(c, s, e).motion == s.motion
  {
    hide LogInv, PollMotion, UpdateAlarm, RequestAlarmReset, Receive, Fresh, CounterInv, TimeInv, Alarm;
    var now := e.at;
    var t0 := Emit(s, now, MonitorRequest).(link := Receive(c.addresses, s.link, now, e.ev.chunk));
    var t2 := PollAlarm(c, s, now, e.ev.chunk);
    MotionFrame(c, t2, now);
    AlarmHalf(c, t0, now, Fresh(c, t0.link, now), t0.link.status, t0.link.position);
    RequestEffect(c, t0, now, false, 0);
    ManualMotion(c, t2, now);
  }

  /** While the alarm lasts, a resume that is still pending is the same one. */
  lemma PendingKept(c: Config, s: State, from: int, e: Timed)
    requires ValidConfig(c) && Inv(c, s, from) && from <= e.at
    requires s.alarm.active && Step(c, s, e).alarm.active && Step(c, s, e).resume.mode == Position
    ensures s.resume.mode == Position && Step(c, s, e).resume.target == s.resume.target
  {
    hide LogInv, OnPoll, RequestAlarmReset, ManualVelocity, ManualUpSpeed, ToInt16, CounterInv, TimeInv,
         HomingSpeed;
    match e.ev
    case Poll(_) => TickKeepsPending(c, s, from, e);
    case Reset(_) =>
      RequestEffect(c, ClearCycles(s.(alarm := s.alarm.(attempts := 0, exhausted := false))), e.at, true, 0);
    case TextCommand(_) =>
      var up := ManualUpSpeed(c, s.motion.homed);
      ManualVelocityEffect(s, e.at, up, 0);
      ManualVelocityEffect(s, e.at, ToInt16(-up), 0);
      ManualVelocityEffect(s, e.at, 0, 0);
    case VelocityCmd(rpm) => ManualVelocityEffect(s, e.at, rpm, 0);
    case _ =>
  }

  /** The alarm half of a tick in which the alarm clears. */
  lemma ClearHalf(c: Config, s: State, now: int, live: bool, status: byte, pos: int)
    requires s.alarm.active && !UpdateAlarm(c, s, now, live, status, pos).alarm.active
    requires s.motion.mode == Manual && s.resume.mode != Homing && c.maxCycles >= 0
    ensures var t := UpdateAlarm(c, s, now, live, status, pos);
            && t == s.(alarm := t.alarm, motion := t.motion, resume := t.resume, sent := t.sent)
            && if MayResume(c, s.resume) then
                 && t.sent == s.sent + [Sent(now, ResumeCommand(s.motion.homed, s.resume.target, pos))]
                 && t.motion == s.motion.(mode := Position, target := s.resume.target)
                 && t.resume.cycles == s.resume.cycles + 1
               else t.sent == s.sent && t.motion == s.motion && t.resume.cycles == s.resume.cycles
  {
    hide Alarm, RaiseAlarm, RequestAlarmReset;
    RequestEffect(c, s, now, false, 0);
  }

  /** The alarm clears in this tick: the move is resumed exactly when one is
      pending and within budget, as the second frame of the tick; otherwise the
      alarm half sends nothing after the monitor request. */
  lemma ClearTick(c: Config, s: State, from: int, e: Timed)
    requires ValidConfig(c) && Inv(c, s, from) && from <= e.at && e.ev.Poll?
    requires s.alarm.active && !Step(c, s, e).alarm.active
    ensures var t := PollAlarm(c, s, e.at, e.ev.chunk);
            && t == s.(link := t.link, alarm := t.alarm, motion := t.motion, resume := t.resume, sent := t.sent)
            && if MayResume(c, s.resume) then
                 && t.sent == s.sent + [Sent(e.at, MonitorRequest)]
                            + [Sent(e.at, ResumeCommand(s.motion.homed, s.resume.target, t.link.position))]
                 && t.motion == s.motion.(mode := Position, target := s.resume.target)
                 && t.resume.cycles == s.resume.cycles + 1
               else
                 && t.sent == s.sent + [Sent(e.at, MonitorRequest)]
                 && t.motion == s.motion && t.resume.cycles == s.resume.cycles
  {
    hide LogInv, PollMotion, UpdateAlarm, Receive, Fresh, CounterInv, TimeInv;
    var now := e.at;
    var t0 := Emit(s, now, MonitorRequest).(link := Receive(c.addresses, s.link, now, e.ev.chunk));
    var t2 := PollAlarm(c, s, now, e.ev.chunk);
    MotionFrame(c, t2, now);
    ClearHalf(c, t0, now, Fresh(c, t0.link, now), t0.link.status, t0.link.position);
  }

  /* ---- exactness over an episode ---- */

  lemma {:induction false} PendingThrough(c: Config, s: State, from: int, evs: seq<Timed>)
    requires ValidConfig(c) && Inv(c, s, from) && Chronological(from, evs)
    requires s.alarm.active && StaysActive(c, s, evs) && Exec(c, s, evs).resume.mode == Position
    ensures s.resume.mode == Position && Exec(c, s, evs).resume.target == s.resume.target
    decreases |evs|
  {
    hide Step, Inv;
    if evs != [] {
      StepKeeps(c, s, from, evs[0]);
      PendingThrough(c, Step(c, s, evs[0]), evs[0].at, evs[1..]);
      PendingKept(c, s, from, evs[0]);
    }
  }

  /** A position move interrupted by an alarm, and not cancelled before the alarm
      clears, is resumed (budget permitting) to the target it had when the alarm
      rose: absolutely once homed, else by the distance left from the position
      just reported. */
  lemma ResumeIsExact(c: Config, from: int, before: seq<Timed>, rise: Timed, during: seq<Timed>, clear: Timed)
    requires ValidConfig(c) && Chronological(from, before + [rise] + during) && clear.ev.Poll?
    requires Clock(from, before + [rise] + during) <= clear.at
    requires var s, t := Exec(c, Init(c, from), before), Exec(c, Init(c, from), before + [rise]);
             s.motion.mode == Position && t.alarm.active && StaysActive(c, t, during)
    requires var u := Exec(c, Init(c, from), before + [rise] + during);
             u.resume.mode == Position && !Step(c, u, clear).alarm.active
    ensures var goal := Exec(c, Init(c, from), before).motion.target;
            var u := Exec(c, Init(c, from), before + [rise] + during);
            var v := PollAlarm(c, u, clear.at, clear.ev.chunk);
            u.resume.target == goal && v.link == Step(c, u, clear).link &&
            (MayResume(c, u.resume) ==>
              && v.motion.mode == Position && v.motion.target == goal
              && v.sent == u.sent + [Sent(clear.at, MonitorRequest)]
                         + [Sent(clear.at, ResumeCommand(u.motion.homed, goal, v.link.position))])
  {
    hide Init, Step, StaysActive, LogInv, CounterInv, TimeInv, PollAlarm;
    var s, t := Exec(c, Init(c, from), before), Exec(c, Init(c, from), before + [rise]);
    var all := before + [rise] + during;
    forall i | 0 <= i < |before|
      ensures before[i] == all[i]
    {
    }
    InitInv(c, from);
    ExecKeeps(c, Init(c, from), from, before);
    EpisodeBegins(c, from, before, rise, during);
    RiseRemembersMove(c, s, Clock(from, before), rise);
    ExecAppend(c, Init(c, from), before + [rise], during);
    PendingThrough(c, t, rise.at, during);
    ExecKeeps(c, t, rise.at, during);
    var u := Exec(c, t, during);
    assert Clock(rise.at, during) == Clock(from, all);
    StillActive(c, t, during);
    ClearTick(c, u, Clock(rise.at, during), clear);
    TickLink(c, u, clear);
  }

  lemma TickLink(c: Config, s: State, e: Timed)
    requires e.ev.Poll?
    ensures Step(c, s, e).link == PollAlarm(c, s, e.at, e.ev.chunk).link
  {
    hide PollAlarm, PollMotion;
    MotionFrame(c, PollAlarm(c, s, e.at, e.ev.chunk), e.at);
  }

  lemma {:induction false} StillActive(c: Config, s: State, evs: seq<Timed>)
    requires s.alarm.active && StaysActive(c, s, evs)
    ensures Exec(c, s, evs).alarm.active
    decreases |evs|
  {
    hide Step;
    if evs != [] {
      StillActive(c, Step(c, s, evs[0]), evs[1..]);
    }
  }

  /* ---- the resume budget ---- */

  /** This event resumes a move. */
  predicate Resumed(c: Config, s: State, e: Timed) {
    e.ev.Poll? && s.alarm.active && PollAlarm(c, s, e.at, e.ev.chunk).motion.mode == Position
  }

  /** This event is a command of the user that the driver acts on, or a tick that
      starts the automatic homing or ends a motion without an alarm. */
  predicate Renews(c: Config, s: State, e: Timed) {
    if !e.ev.Poll? then Acts(c, s, e.ev)
    else
      var t := PollAlarm(c, s, e.at, e.ev.chunk);
      AutoHomes(c, t, e.at) || (t.motion.mode != Manual && Step(c, s, e).motion.mode == Manual)
  }

  function CountResumed(c: Config, s: State, evs: seq<Timed>): nat
    decreases |evs|
  {
    if evs == [] then 0
    else (if Resumed(c, s, evs[0]) then 1 else 0) + CountResumed(c, Step(c, s, evs[0]), evs[1..])
  }

  function CountRenewals(c: Config, s: State, evs: seq<Timed>): nat
    decreases |evs|
  {
    if evs == [] then 0
    else (if Renews(c, s, evs[0]) then 1 else 0) + CountRenewals(c, Step(c, s, evs[0]), evs[1..])
  }

  /** The alarm half changes the cycle count only by resuming. */
  lemma AlarmHalfCycles(c: Config, s: State, from: int, e: Timed)
    requires ValidConfig(c) && Inv(c, s, from) && from <= e.at && e.ev.Poll?
    ensures var t := PollAlarm(c, s, e.at, e.ev.chunk);
            && t.resume.cycles == s.resume.cycles + (if Resumed(c, s, e) then 1 else 0)
            && (Resumed(c, s, e) ==> c.maxCycles == 0 || s.resume.cycles < c.maxCycles)
  {
    hide LogInv, PollMotion, UpdateAlarm, RequestAlarmReset, RaiseAlarm, Receive, Fresh, CounterInv, TimeInv,
         Alarm;
    var now := e.at;
    var t0 := Emit(s, now, MonitorRequest).(link := Receive(c.addresses, s.link, now, e.ev.chunk));
    var t2 := PollAlarm(c, s, now, e.ev.chunk);
    MotionFrame(c, t2, now);
    if Step(c, s, e).alarm.active {
      AlarmHalf(c, t0, now, Fresh(c, t0.link, now), t0.link.status, t0.link.position);
      var t1 := if t0.alarm.active then t0 else RaiseAlarm(t0, now);
      RaiseCycles(t0, now);
      RequestEffect(c, t1, now, false, 0);
    } else if s.alarm.active {
      ClearTick(c, s, from, e);
    } else {
      IdleAlarm(c, t0, now, Fresh(c, t0.link, now), t0.link.status, t0.link.position);
    }
  }

  lemma RaiseCycles(s: State, now: int)
    ensures RaiseAlarm(s, now).resume.cycles == s.resume.cycles
  {
  }

  lemma IdleAlarm(c: Config, s: State, now: int, live: bool, status: byte, pos: int)
    requires !s.alarm.active && !UpdateAlarm(c, s, now, live, status, pos).alarm.active
    ensures UpdateAlarm(c, s, now, live, status, pos) == s
  {
    hide RequestAlarmReset, Alarm;
    RaiseEffect(s, now);
    RequestEffect(c, RaiseAlarm(s, now), now, false, 0);
  }

  /** The motion half keeps the count unless a motion begins or ends in it. */
  lemma MotionHalfCycles(c: Config, s: State, now: int)
    requires !AutoHomes(c, s, now)
    requires s.motion.mode == Manual || PollMotion(c, s, now).motion.mode != Manual
    ensures PollMotion(c, s, now).resume.cycles == s.resume.cycles
  {
    hide HomingVelocity, AtLowerLimit, LimitReached, WindowRestarts, StallConfirmed, HomingTimedOut,
         BasePositionSpeed, ScaledPositionSpeed, Fresh, AutoHomes;
  }

  /** One that begins or ends in it starts the count afresh. */
  lemma MotionHalfRenews(c: Config, s: State, now: int)
    requires AutoHomes(c, s, now) || (s.motion.mode != Manual && PollMotion(c, s, now).motion.mode == Manual)
    ensures PollMotion(c, s, now).resume.cycles == 0
  {
    hide HomingVelocity, AtLowerLimit, LimitReached, WindowRestarts, StallConfirmed, HomingTimedOut,
         BasePositionSpeed, ScaledPositionSpeed, Fresh, AutoHomes;
  }

  lemma CommandCycles(c: Config, s: State, e: Timed)
    requires !e.ev.Poll?
    ensures Step(c, s, e).resume.cycles == if Acts(c, s, e.ev) then 0 else s.resume.cycles
  {
    hide ManualUpSpeed, ToInt16, HomingSpeed, HomingVelocity;
  }

  /** The count starts afresh exactly with the events that renew it; otherwise it
      grows by one with each resumed move. */
  lemma CyclesStep(c: Config, s: State, from: int, e: Timed)
    requires ValidConfig(c) && Inv(c, s, from) && from <= e.at
    ensures Resumed(c, s, e) && c.maxCycles > 0 ==> s.resume.cycles < c.maxCycles
    ensures Step(c, s, e).resume.cycles
            == if Renews(c, s, e) then 0 else s.resume.cycles + (if Resumed(c, s, e) then 1 else 0)
  {
    hide PollAlarm, PollMotion, AutoHomes, Acts, OnText, ManualVelocity, OnPosition, OnIncPosition, OnHome, OnReset;
    if e.ev.Poll? {
      AlarmHalfCycles(c, s, from, e);
      if Renews(c, s, e) {
        MotionHalfRenews(c, PollAlarm(c, s, e.at, e.ev.chunk), e.at);
      } else {
        MotionHalfCycles(c, PollAlarm(c, s, e.at, e.ev.chunk), e.at);
      }
    } else {
      CommandCycles(c, s, e);
    }
  }

  lemma {:induction false} ResumesFrom(c: Config, s: State, from: int, evs: seq<Timed>)
    requires ValidConfig(c) && c.maxCycles > 0 && Inv(c, s, from) && Chronological(from, evs)
    ensures CountResumed(c, s, evs) + s.resume.cycles <= c.maxCycles * (1 + CountRenewals(c, s, evs))
    decreases |evs|
  {
    hide Step, LogInv, ModeInv, TimeInv, Resumed, Renews;
    if evs != [] {
      var t := Step(c, s, evs[0]);
      StepKeeps(c, s, from, evs[0]);
      CyclesStep(c, s, from, evs[0]);
      var later := CountRenewals(c, t, evs[1..]);
      ResumesFrom(c, t, evs[0].at, evs[1..]);
      assert c.maxCycles * (1 + (1 + later)) == c.maxCycles + c.maxCycles * (1 + later);
    }
  }

  /** With a positive limit, no run resumes more often than the limit times one
      plus the number of commands acted on and motion ends in it. */
  lemma ResumesAreBounded(c: Config, from: int, before: seq<Timed>, evs: seq<Timed>)
    requires ValidConfig(c) && c.maxCycles > 0 && Chronological(from, before)
    requires Chronological(Clock(from, before), evs)
    ensures var s := Exec(c, Init(c, from), before);
            CountResumed(c, s, evs) <= c.maxCycles * (1 + CountRenewals(c, s, evs))
  {
    hide Init, Step, LogInv, ModeInv, TimeInv;
    InitInv(c, from);
    ExecKeeps(c, Init(c, from), from, before);
    ResumesFrom(c, Exec(c, Init(c, from), before), Clock(from, before), evs);
  }
}
