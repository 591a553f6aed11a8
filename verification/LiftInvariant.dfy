/** The invariant every reachable state of the lift driver satisfies, and the
    safety of its origin: which frames may precede which on the wire. */
module LiftInvariant {
  import opened Bytes
  import opened LiftFrames
  import opened LiftSpec

  /** The origin has been set by a frame in this log. */
  predicate Originated(log: seq<Sent>) {
    log != [] && (log[|log| - 1].cmd.OriginReset? || Originated(log[..|log| - 1]))
  }

  /** x may follow log: no absolute move before the origin exists, and the origin
      is only ever set directly after a stop command. */
  predicate MayFollow(log: seq<Sent>, x: Command) {
    && (x.AbsPosition? ==> Originated(log))
    && (x.OriginReset? ==> log != [] && log[|log| - 1].cmd == Velocity(0))
  }

  predicate OriginOrdered(log: seq<Sent>) {
    log == [] || (OriginOrdered(log[..|log| - 1]) && MayFollow(log[..|log| - 1], log[|log| - 1].cmd))
  }

  /** The velocity command in force: the last one sent, 0 if none was. */
  function LastVelocity(log: seq<Sent>): int {
    if log == [] then 0
    else if log[|log| - 1].cmd.Velocity? then log[|log| - 1].cmd.rpm
    else LastVelocity(log[..|log| - 1])
  }

  ghost predicate LogInv(s: State) {
    && (s.motion.homed <==> Originated(s.sent))
    && OriginOrdered(s.sent)
    && s.watch.cmd == LastVelocity(s.sent)
  }

  /** An active alarm means manual mode; a pending resume means an active alarm,
      a position move, and a stopped axis. */
  ghost predicate ModeInv(s: State) {
    && (s.alarm.active ==> s.motion.mode == Manual)
    && (s.resume.mode != Manual ==> s.alarm.active && s.resume.mode == Position && s.watch.cmd == 0)
  }

  ghost predicate CounterInv(c: Config, s: State) {
    && s.alarm.attempts >= 0 && s.resume.cycles >= 0
    && (!s.alarm.active ==> s.alarm.attempts == 0)
    && (c.maxAttempts > 0 ==> s.alarm.attempts <= c.maxAttempts)
    && (s.alarm.exhausted ==> s.alarm.active && c.maxAttempts > 0 && s.alarm.attempts == c.maxAttempts)
    && (c.maxCycles > 0 ==> s.resume.cycles <= c.maxCycles)
  }

  ghost predicate TimeInv(s: State, now: int) {
    && 0 < now
    && s.homing.start <= now && s.homing.stallSince <= now
    && s.watch.since <= now && s.watch.refTime <= now
    && 0 <= s.alarm.lastReset <= now
    && (s.alarm.active && s.alarm.attempts > 0 ==> s.alarm.lastReset > 0)
  }

  ghost predicate Inv(c: Config, s: State, now: int) {
    LogInv(s) && ModeInv(s) && CounterInv(c, s) && TimeInv(s, now)
  }

  /* ---- one frame ---- */

  lemma LogGrows(log: seq<Sent>, x: Sent)
    requires OriginOrdered(log) && MayFollow(log, x.cmd)
    ensures OriginOrdered(log + [x])
    ensures Originated(log + [x]) <==> Originated(log) || x.cmd.OriginReset?
    ensures LastVelocity(log + [x]) == if x.cmd.Velocity? then x.cmd.rpm else LastVelocity(log)
  {
    assert (log + [x])[..|log|] == log;
  }

  lemma EmitLog(s: State, now: int, cmd: Command)
    requires LogInv(s)
    requires cmd.AbsPosition? ==> s.motion.homed
    requires !cmd.OriginReset? && !cmd.Velocity?
    ensures LogInv(Emit(s, now, cmd))
  {
    hide Originated, OriginOrdered, LastVelocity;
    LogGrows(s.sent, Sent(now, cmd));
  }

  lemma SendVelocityLog(s: State, now: int, rpm: int)
    requires LogInv(s)
    ensures LogInv(SendVelocity(s, now, rpm))
  {
    hide Originated, OriginOrdered, LastVelocity;
    LogGrows(s.sent, Sent(now, Velocity(rpm)));
  }

  lemma CompleteHomingLog(c: Config, s: State, now: int)
    requires LogInv(s)
    ensures LogInv(CompleteHoming(c, s, now))
  {
    hide Originated, OriginOrdered, LastVelocity, ScaledPositionSpeed, BasePositionSpeed;
    SendVelocityLog(s, now, 0);
    var t := Emit(SendVelocity(s, now, 0), now, OriginReset);
    LogGrows(SendVelocity(s, now, 0).sent, Sent(now, OriginReset));
    LogGrows(t.sent, Sent(now, PositionVelocity(ScaledPositionSpeed(c))));
  }

  /* ---- alarm handling ---- */

  lemma RequestAlarmResetKeeps(c: Config, s: State, now: int, manual: bool)
    requires ValidConfig(c) && Inv(c, s, now) && s.alarm.active
    requires manual ==> s.alarm.attempts == 0
    ensures Inv(c, RequestAlarmReset(c, s, now, manual), now)
  {
    hide Originated, OriginOrdered, LastVelocity;
    SendVelocityLog(s, now, 0);
    EmitLog(SendVelocity(s, now, 0), now, AlarmReset);
  }

  lemma RaiseAlarmKeeps(c: Config, s: State, now: int)
    requires ValidConfig(c) && Inv(c, s, now) && !s.alarm.active
    ensures Inv(c, RaiseAlarm(s, now), now)
  {
    hide Originated, OriginOrdered, LastVelocity;
    SendVelocityLog(s, now, 0);
  }

  lemma ResumeKeeps(c: Config, s: State, now: int, pos: int)
    requires ValidConfig(c) && Inv(c, s, now) && s.alarm.active
    ensures Inv(c, ResumeAfterAlarm(c, ClearAlarm(s), now, pos), now)
  {
    hide Originated, OriginOrdered, LastVelocity;
    if s.motion.homed {
      LogGrows(s.sent, Sent(now, AbsPosition(s.resume.target)));
    } else {
      LogGrows(s.sent, Sent(now, IncPosition(s.resume.target - pos)));
    }
  }

  lemma UpdateAlarmKeeps(c: Config, s: State, now: int, live: bool, status: byte, pos: int)
    requires ValidConfig(c) && Inv(c, s, now)
    ensures Inv(c, UpdateAlarm(c, s, now, live, status, pos), now)
  {
    hide LogInv, CounterInv, TimeInv, RequestAlarmReset, ResumeAfterAlarm, Alarm;
    if live {
      if !Alarm(status) && s.alarm.active {
        ResumeKeeps(c, s, now, pos);
      } else {
        var t := s;
        if Alarm(status) && !s.alarm.active {
          RaiseAlarmKeeps(c, s, now);
          t := RaiseAlarm(s, now);
        }
        if t.alarm.active {
          RequestAlarmResetKeeps(c, t, now, false);
        }
      }
    }
  }

  /* ---- motion ---- */

  lemma SendVelocityKeeps(c: Config, s: State, now: int, rpm: int)
    requires Inv(c, s, now) && (s.resume.mode != Manual ==> rpm == 0)
    ensures Inv(c, SendVelocity(s, now, rpm), now)
  {
    hide Originated, OriginOrdered, LastVelocity;
    SendVelocityLog(s, now, rpm);
  }

  lemma CompleteHomingKeeps(c: Config, s: State, now: int)
    requires ValidConfig(c) && Inv(c, s, now) && s.motion.mode == Homing
    ensures Inv(c, CompleteHoming(c, s, now), now)
  {
    hide LogInv, ScaledPositionSpeed, BasePositionSpeed;
    CompleteHomingLog(c, s, now);
  }

  lemma UpdateMotionKeeps(c: Config, s: State, now: int, live: bool, pos: int, di: byte)
    requires ValidConfig(c) && Inv(c, s, now)
    ensures Inv(c, UpdateMotion(c, s, now, live, pos, di), now)
  {
    hide Originated, OriginOrdered, LastVelocity, CompleteHoming, SendVelocity, HomingTimedOut,
         LimitReached, WindowRestarts, StallConfirmed;
    if s.motion.mode == Homing {
      SendVelocityKeeps(c, s, now, 0);
      CompleteHomingKeeps(c, s, now);
      SendVelocityKeeps(c, s, now, s.homing.dirSpeed);
      SendVelocityEffect(s, now, s.homing.dirSpeed);
      SendVelocityEffect(s, now, 0);
      CompleteHomingKeeps(c, SendVelocity(s, now, s.homing.dirSpeed), now);
    }
  }

  /** A velocity command touches nothing but the watch and the log. */
  lemma SendVelocityEffect(s: State, now: int, rpm: int)
    ensures var t := SendVelocity(s, now, rpm);
            && t == s.(watch := t.watch, sent := s.sent + [Sent(now, Velocity(rpm))])
            && t.watch.cmd == rpm
            && (rpm == s.watch.cmd ==> t.watch == s.watch)
  {
  }

  lemma ReleaseKeeps(c: Config, s: State, now: int, live: bool, pos: int, di: byte)
    requires ValidConfig(c) && Inv(c, s, now)
    ensures Inv(c, ReleaseIfBlocked(c, s, now, live, pos, di), now)
  {
    hide Originated, OriginOrdered, LastVelocity, AtLowerLimit, SendVelocity;
    SendVelocityKeeps(c, s, now, 0);
  }

  lemma PollAlarmKeeps(c: Config, s: State, now: int, chunk: seq<byte>)
    requires ValidConfig(c) && Inv(c, s, now)
    ensures Inv(c, PollAlarm(c, s, now, chunk), now)
  {
    hide Originated, OriginOrdered, LastVelocity, UpdateAlarm, Receive;
    EmitLog(s, now, MonitorRequest);
    var t := Emit(s, now, MonitorRequest).(link := Receive(c.addresses, s.link, now, chunk));
    UpdateAlarmKeeps(c, t, now, Fresh(c, t.link, now), t.link.status, t.link.position);
  }

  lemma PollMotionKeeps(c: Config, s: State, now: int)
    requires ValidConfig(c) && Inv(c, s, now)
    ensures Inv(c, PollMotion(c, s, now), now)
  {
    hide Originated, OriginOrdered, LastVelocity, UpdateMotion, ReleaseIfBlocked, HomingVelocity;
    var l, live := s.link, Fresh(c, s.link, now);
    var t := if AutoHomes(c, s, now) then StartHoming(c, s, now) else s;
    UpdateMotionKeeps(c, t, now, live, l.position, l.di);
    ReleaseKeeps(c, UpdateMotion(c, t, now, live, l.position, l.di), now, live, l.position, l.di);
  }

  /* ---- every event ---- */

  lemma ManualVelocityKeeps(c: Config, s: State, now: int, rpm: int)
    requires Inv(c, s, now)
    ensures Inv(c, ManualVelocity(s, now, rpm), now)
  {
    hide Originated, OriginOrdered, LastVelocity, SendVelocity;
    SendVelocityKeeps(c, CancelResume(WithMode(s, Manual)), now, rpm);
  }

  lemma HomeKeeps(c: Config, s: State, now: int, start: bool)
    requires ValidConfig(c) && Inv(c, s, now)
    ensures Inv(c, OnHome(c, s, now, start), now)
  {
    hide Originated, OriginOrdered, LastVelocity, SendVelocity, HomingVelocity;
    SendVelocityKeeps(c, CancelResume(WithMode(s.(pendingHome := false), Manual)), now, 0);
  }

  lemma MoveKeeps(c: Config, s: State, now: int, counts: int)
    requires ValidConfig(c) && Inv(c, s, now)
    ensures Inv(c, OnPosition(s, now, counts), now) && Inv(c, OnIncPosition(s, now, counts), now)
  {
    hide Originated, OriginOrdered, LastVelocity;
    LogGrows(s.sent, Sent(now, IncPosition(counts)));
    if s.motion.homed {
      LogGrows(s.sent, Sent(now, AbsPosition(counts)));
    }
  }

  lemma ResetKeeps(c: Config, s: State, now: int, go: bool)
    requires ValidConfig(c) && Inv(c, s, now)
    ensures Inv(c, OnReset(c, s, now, go), now)
  {
    hide Originated, OriginOrdered, LastVelocity, RequestAlarmReset;
    var t := ClearCycles(s.(alarm := s.alarm.(attempts := 0, exhausted := false)));
    if s.alarm.active {
      RequestAlarmResetKeeps(c, t, now, true);
    } else {
      EmitLog(t, now, AlarmReset);
    }
  }

  lemma InvLater(c: Config, s: State, from: int, now: int)
    requires Inv(c, s, from) && from <= now
    ensures Inv(c, s, now)
  {
    hide LogInv, ModeInv, CounterInv;
  }

  lemma StepKeeps(c: Config, s: State, from: int, e: Timed)
    requires ValidConfig(c) && Inv(c, s, from) && from <= e.at
    ensures Inv(c, Step(c, s, e), e.at)
  {
    hide Inv, PollAlarm, PollMotion, ManualVelocity, ManualUpSpeed, ToInt16, OnPosition, OnIncPosition,
         OnHome, OnReset;
    InvLater(c, s, from, e.at);
    match e.ev
    case TextCommand(_) =>
      var up := ManualUpSpeed(c, s.motion.homed);
      ManualVelocityKeeps(c, s, e.at, up);
      ManualVelocityKeeps(c, s, e.at, ToInt16(-up));
      ManualVelocityKeeps(c, s, e.at, 0);
    case VelocityCmd(rpm) => ManualVelocityKeeps(c, s, e.at, rpm);
    case PositionCmd(counts) => MoveKeeps(c, s, e.at, counts);
    case IncPositionCmd(counts) => MoveKeeps(c, s, e.at, counts);
    case Home(start) => HomeKeeps(c, s, e.at, start);
    case Reset(go) => ResetKeeps(c, s, e.at, go);
    case Poll(chunk) =>
      PollAlarmKeeps(c, s, e.at, chunk);
      PollMotionKeeps(c, PollAlarm(c, s, e.at, chunk), e.at);
  }

  lemma InitInv(c: Config, now: int)
    requires ValidConfig(c) && 0 < now
    ensures Inv(c, Init(c, now), now)
  {
  }

  /** The clock after a run. */
  function Clock(from: int, evs: seq<Timed>): int {
    if evs == [] then from else evs[|evs| - 1].at
  }

  lemma {:induction false} ExecKeeps(c: Config, s: State, from: int, evs: seq<Timed>)
    requires ValidConfig(c) && Inv(c, s, from) && Chronological(from, evs)
    ensures Inv(c, Exec(c, s, evs), Clock(from, evs))
    decreases |evs|
  {
    hide Step, Inv;
    if evs != [] {
      StepKeeps(c, s, from, evs[0]);
      ExecKeeps(c, Step(c, s, evs[0]), evs[0].at, evs[1..]);
      assert Clock(from, evs) == Clock(evs[0].at, evs[1..]);
    }
  }

  /* ---- main results: the origin ---- */

  lemma {:induction false} OriginatedAt(log: seq<Sent>)
    ensures Originated(log) <==> exists j :: 0 <= j < |log| && log[j].cmd.OriginReset?
  {
    if log != [] {
      var front := log[..|log| - 1];
      OriginatedAt(front);
      if j :| 0 <= j < |front| && front[j].cmd.OriginReset? {
        assert log[j].cmd.OriginReset?;
      }
    }
  }

  lemma {:induction false} OriginOrderedAt(log: seq<Sent>, i: nat)
    requires OriginOrdered(log) && i < |log|
    ensures MayFollow(log[..i], log[i].cmd)
  {
    var n := |log| - 1;
    if i < n {
      OriginOrderedAt(log[..n], i);
      assert log[..n][..i] == log[..i];
    }
  }

  /** Over every run from start-up: `homed` says exactly whether the origin was
      set on the drive, no absolute move is ever sent before that, and each
      setting of the origin directly follows a stop command. */
  lemma OriginSafety(c: Config, from: int, evs: seq<Timed>)
    requires ValidConfig(c) && Chronological(from, evs)
    ensures var s := Exec(c, Init(c, from), evs);
            && (s.motion.homed <==> exists j :: 0 <= j < |s.sent| && s.sent[j].cmd.OriginReset?)
            && (forall i :: 0 <= i < |s.sent| && s.sent[i].cmd.AbsPosition? ==>
                  exists j :: 0 <= j < i && s.sent[j].cmd.OriginReset?)
            && (forall i :: 0 <= i < |s.sent| && s.sent[i].cmd.OriginReset? ==>
                  i > 0 && s.sent[i - 1].cmd == Velocity(0))
  {
    InitInv(c, from);
    ExecKeeps(c, Init(c, from), from, evs);
    var log := Exec(c, Init(c, from), evs).sent;
    OriginatedAt(log);
    forall i | 0 <= i < |log| && log[i].cmd.AbsPosition?
      ensures exists j :: 0 <= j < i && log[j].cmd.OriginReset?
    {
      OriginOrderedAt(log, i);
      OriginatedAt(log[..i]);
      var j :| 0 <= j < i && log[..i][j].cmd.OriginReset?;
      assert log[j].cmd.OriginReset?;
    }
    forall i | 0 <= i < |log| && log[i].cmd.OriginReset?
      ensures i > 0 && log[i - 1].cmd == Velocity(0)
    {
      OriginOrderedAt(log, i);
    }
  }
}
