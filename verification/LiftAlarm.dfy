/** Alarm episodes over whole runs: silence on the wire, and the budget and
    pace of automatic alarm resets. */
module LiftAlarm {
  import opened Bytes
  import opened LiftFrames
  import opened LiftSpec
  import opened LiftInvariant

  /* ---- reading the log ---- */

  /** The only frames a tick may send while an alarm is active. */
  predicate Silent(cmd: Command) {
    cmd == MonitorRequest || cmd == Velocity(0) || cmd == AlarmReset
  }

  ghost predicate SilentFrom(log: seq<Sent>, base: nat) {
    forall i :: base <= i < |log| ==> Silent(log[i].cmd)
  }

  /** The number of alarm resets in a log. */
  function Resets(log: seq<Sent>): nat {
    if log == [] then 0
    else Resets(log[..|log| - 1]) + if log[|log| - 1].cmd.AlarmReset? then 1 else 0
  }

  /** When the last alarm reset at or after index base was sent, 0 if none was. */
  function LastReset(log: seq<Sent>, base: nat): int {
    if |log| <= base then 0
    else if log[|log| - 1].cmd.AlarmReset? then log[|log| - 1].at
    else LastReset(log[..|log| - 1], base)
  }

  lemma LogAppend(log: seq<Sent>, x: Sent, base: nat)
    requires base <= |log|
    ensures Resets(log + [x]) == Resets(log) + if x.cmd.AlarmReset? then 1 else 0
    ensures LastReset(log + [x], base) == if x.cmd.AlarmReset? then x.at else LastReset(log, base)
    ensures SilentFrom(log, base) && Silent(x.cmd) ==> SilentFrom(log + [x], base)
  {
    assert (log + [x])[..|log|] == log;
  }

  lemma QuietStart(log: seq<Sent>)
    ensures LastReset(log, |log|) == 0 && SilentFrom(log, |log|)
  {
  }

  /* ---- the two halves of a tick ---- */

  lemma HomingFrame(c: Config, s: State, now: int, live: bool, pos: int, di: byte)
    ensures var t := UpdateHoming(c, s, now, live, pos, di); t.alarm == s.alarm && t.link == s.link
  {
    hide LimitReached, WindowRestarts, StallConfirmed, HomingTimedOut, BasePositionSpeed, ScaledPositionSpeed;
  }

  /** The motion half of a tick leaves the alarm bookkeeping alone. */
  lemma MotionFrame(c: Config, s: State, now: int)
    ensures var t := PollMotion(c, s, now); t.alarm == s.alarm && t.link == s.link
  {
    hide HomingVelocity, AtLowerLimit, UpdateHoming, Fresh, AutoHomes;
    var t := if AutoHomes(c, s, now) then StartHoming(c, s, now) else s;
    HomingFrame(c, t, now, Fresh(c, s.link, now), s.link.position, s.link.di);
  }

  /** In manual mode the motion half can only release the velocity. */
  lemma ManualMotion(c: Config, s: State, now: int)
    requires s.motion.mode == Manual && !AutoHomes(c, s, now)
    ensures var t := PollMotion(c, s, now);
            && t == s.(watch := t.watch, sent := t.sent)
            && (t.sent == s.sent || t.sent == s.sent + [Sent(now, Velocity(0))])
            && (s.watch.cmd == 0 ==> t == s)
  {
    hide AutoHomes, AtLowerLimit, Fresh;
  }

  /** What the alarm half does in a tick it leaves with the alarm active. */
  lemma AlarmHalf(c: Config, s: State, now: int, live: bool, status: byte, pos: int)
    requires UpdateAlarm(c, s, now, live, status, pos).alarm.active
    ensures s.alarm.active || (live && Alarm(status))
    ensures var t := if s.alarm.active then s else RaiseAlarm(s, now);
            var u := UpdateAlarm(c, s, now, live, status, pos);
            u == t || (u == RequestAlarmReset(c, t, now, false)
                       && (t.alarm.lastReset == 0 || now - t.alarm.lastReset >= c.resetInterval))
  {
    hide RequestAlarmReset, SendVelocity;
  }

  /** Bookkeeping of one episode whose first frame has index base: the driver's
      reset time is that of the episode's last reset frame. */
  ghost predicate Tracked(s: State, base: nat) {
    base <= |s.sent| && s.alarm.lastReset == LastReset(s.sent, base)
  }

  /** An alarm reset adds one frame and one attempt, or gives up. */
  lemma RequestEffect(c: Config, s: State, now: int, manual: bool, base: nat)
    requires base <= |s.sent|
    ensures var t := RequestAlarmReset(c, s, now, manual);
            && s.sent <= t.sent
            && t == s.(watch := t.watch, alarm := t.alarm, sent := t.sent)
            && t.alarm.active == s.alarm.active
            && Resets(t.sent) - t.alarm.attempts == Resets(s.sent) - s.alarm.attempts
            && (Tracked(s, base) ==> Tracked(t, base))
            && (Resets(t.sent) > Resets(s.sent) ==> LastReset(t.sent, base) == now == t.alarm.lastReset)
            && (SilentFrom(s.sent, base) ==> SilentFrom(t.sent, base))
  {
    hide Resets, LastReset, SilentFrom;
    LogAppend(s.sent, Sent(now, Velocity(0)), base);
    LogAppend(s.sent + [Sent(now, Velocity(0))], Sent(now, AlarmReset), base);
  }

  lemma RaiseEffect(s: State, now: int)
    ensures var t := RaiseAlarm(s, now);
            && t.sent == s.sent + [Sent(now, Velocity(0))]
            && t.alarm == AlarmState(true, 0, false, 0)
            && t.motion.mode == Manual && t.watch.cmd == 0
            && (s.motion.mode == Position ==>
                  t.resume.mode == Position && t.resume.target == s.motion.target)
  {
  }

  /** A tick that ends with the alarm active: base is where its frames begin if
      the alarm rises in it, else any index of the episode so far. */
  lemma AlarmTick(c: Config, s: State, from: int, e: Timed, base: nat)
    requires ValidConfig(c) && Inv(c, s, from) && from <= e.at && e.ev.Poll?
    requires Step(c, s, e).alarm.active
    requires if s.alarm.active then base <= |s.sent| else base == |s.sent|
    ensures var t := Step(c, s, e);
            && s.sent <= t.sent && SilentFrom(t.sent, |s.sent|)
            && ((s.alarm.active ==> Tracked(s, base)) ==> Tracked(t, base))
            && Resets(t.sent) - t.alarm.attempts == Resets(s.sent) - s.alarm.attempts
            && (s.alarm.active && Resets(t.sent) > Resets(s.sent) && s.alarm.lastReset > 0
                ==> e.at - s.alarm.lastReset >= c.resetInterval)
            && (Resets(t.sent) > Resets(s.sent) ==> LastReset(t.sent, base) == e.at)
            && t.motion.mode == Manual
  {
    hide Resets, LastReset, LogInv, Receive, RequestAlarmReset, UpdateAlarm, RaiseAlarm, PollMotion,
         SilentFrom, Fresh, Alarm;
    var now, n := e.at, |s.sent|;
    var t0 := Emit(s, now, MonitorRequest).(link := Receive(c.addresses, s.link, now, e.ev.chunk));
    QuietStart(s.sent);
    LogAppend(s.sent, Sent(now, MonitorRequest), n);
    LogAppend(s.sent, Sent(now, MonitorRequest), base);
    var t2 := PollAlarm(c, s, now, e.ev.chunk);
    MotionFrame(c, t2, now);
    AlarmHalf(c, t0, now, Fresh(c, t0.link, now), t0.link.status, t0.link.position);
    var t1 := t0;
    if !t0.alarm.active {
      RaiseEffect(t0, now);
      t1 := RaiseAlarm(t0, now);
      LogAppend(t0.sent, Sent(now, Velocity(0)), n);
    }
    RequestEffect(c, t1, now, false, base);
    RequestEffect(c, t1, now, false, n);
    InvLater(c, s, from, now);
    PollAlarmKeeps(c, s, now, e.ev.chunk);
    ManualMotion(c, t2, now);
    LogAppend(t2.sent, Sent(now, Velocity(0)), base);
    LogAppend(t2.sent, Sent(now, Velocity(0)), n);
  }

  /* ---- whole runs ---- */

  ghost predicate StaysActive(c: Config, s: State, evs: seq<Timed>)
    decreases |evs|
  {
    evs == [] || (Step(c, s, evs[0]).alarm.active && StaysActive(c, Step(c, s, evs[0]), evs[1..]))
  }

  ghost predicate NoManualReset(evs: seq<Timed>) {
    forall i :: 0 <= i < |evs| ==> evs[i].ev != Reset(true)
  }

  lemma ManualVelocityEffect(s: State, now: int, rpm: int, base: nat)
    requires base <= |s.sent|
    ensures var t := ManualVelocity(s, now, rpm);
            && s.sent <= t.sent && t.alarm == s.alarm && t.resume.mode == Manual
            && Resets(t.sent) == Resets(s.sent) && LastReset(t.sent, base) == LastReset(s.sent, base)
  {
    hide Resets, LastReset;
    LogAppend(s.sent, Sent(now, Velocity(rpm)), base);
  }

  /** A command during an alarm sends no alarm reset unless it asks for one, and
      never forgets the episode. */
  lemma AlarmCommand(c: Config, s: State, e: Timed, base: nat)
    requires s.alarm.active && s.motion.mode == Manual && Tracked(s, base) && !e.ev.Poll?
    ensures var t := Step(c, s, e);
            && s.sent <= t.sent && Tracked(t, base) && t.alarm.active
            && (e.ev != Reset(true) ==>
                  Resets(t.sent) == Resets(s.sent) && t.alarm.attempts == s.alarm.attempts)
  {
    hide Resets, LastReset, ManualVelocity, RequestAlarmReset, HomingSpeed, ManualUpSpeed, ToInt16;
    match e.ev
    case TextCommand(text) =>
      var up := ManualUpSpeed(c, s.motion.homed);
      ManualVelocityEffect(s, e.at, up, base);
      ManualVelocityEffect(s, e.at, ToInt16(-up), base);
      ManualVelocityEffect(s, e.at, 0, base);
    case VelocityCmd(rpm) => ManualVelocityEffect(s, e.at, rpm, base);
    case Reset(go) =>
      RequestEffect(c, ClearCycles(s.(alarm := s.alarm.(attempts := 0, exhausted := false))), e.at, true, base);
    case _ =>
  }

  lemma ActiveIsManual(c: Config, s: State, now: int)
    requires Inv(c, s, now) && s.alarm.active
    ensures s.motion.mode == Manual
  {
  }

  lemma {:induction false} EpisodeRun(c: Config, s: State, from: int, evs: seq<Timed>, base: nat)
    requires ValidConfig(c) && Inv(c, s, from) && Chronological(from, evs)
    requires s.alarm.active && Tracked(s, base) && StaysActive(c, s, evs)
    ensures var t := Exec(c, s, evs);
            && Tracked(t, base) && t.alarm.active
            && (NoManualReset(evs) ==> Resets(t.sent) - t.alarm.attempts == Resets(s.sent) - s.alarm.attempts)
    decreases |evs|
  {
    hide Step, Inv, Resets, LastReset;
    if evs != [] {
      var t := Step(c, s, evs[0]);
      StepKeeps(c, s, from, evs[0]);
      if evs[0].ev.Poll? {
        AlarmTick(c, s, from, evs[0], base);
      } else {
        ActiveIsManual(c, s, from);
        AlarmCommand(c, s, evs[0], base);
      }
      EpisodeRun(c, t, evs[0].at, evs[1..], base);
    }
  }

  /** From the tick an alarm rises to the tick it clears, poll ticks send nothing
      but monitor requests, stop commands and alarm resets, and the driver is in
      manual mode, whatever it was doing before and whatever commands arrive. */
  lemma AlarmSilence(c: Config, from: int, evs: seq<Timed>, tick: Timed)
    requires ValidConfig(c) && Chronological(from, evs + [tick]) && tick.ev.Poll?
    requires Exec(c, Init(c, from), evs + [tick]).alarm.active
    ensures var s, t := Exec(c, Init(c, from), evs), Exec(c, Init(c, from), evs + [tick]);
            && s.sent <= t.sent
            && (forall i :: |s.sent| <= i < |t.sent| ==>
                  t.sent[i].cmd in {MonitorRequest, Velocity(0), AlarmReset})
            && t.motion.mode == Manual
  {
    hide Step, Inv, Init;
    var s := Exec(c, Init(c, from), evs);
    ReachBoth(c, from, evs, tick);
    AlarmTick(c, s, Clock(from, evs), tick, |s.sent|);
  }

  lemma ReachBoth(c: Config, from: int, evs: seq<Timed>, last: Timed)
    requires ValidConfig(c) && Chronological(from, evs + [last])
    ensures var s := Exec(c, Init(c, from), evs);
            && Inv(c, s, Clock(from, evs)) && Clock(from, evs) <= last.at
            && Exec(c, Init(c, from), evs + [last]) == Step(c, s, last)
  {
    hide Step, Inv, Init;
    var all := evs + [last];
    assert forall i :: 0 <= i < |evs| ==> evs[i] == all[i];
    assert all[|evs|] == last;
    InitInv(c, from);
    ExecKeeps(c, Init(c, from), from, evs);
    ExecAppend(c, Init(c, from), evs, [last]);
    var s := Exec(c, Init(c, from), evs);
    assert [last][1..] == [];
    assert Exec(c, s, [last]) == Exec(c, Step(c, s, last), []);
  }

  /** The budget: over one alarm episode without a manual reset, the driver sends
      at most `maxAttempts` alarm resets (when that is positive), and it has given
      up only if it has sent exactly that many. */
  lemma AutoResetBudget(c: Config, from: int, before: seq<Timed>, rise: Timed, during: seq<Timed>)
    requires ValidConfig(c) && Chronological(from, before + [rise] + during)
    requires var s, t := Exec(c, Init(c, from), before), Exec(c, Init(c, from), before + [rise]);
             !s.alarm.active && t.alarm.active && StaysActive(c, t, during) && NoManualReset(during)
    ensures var s, u := Exec(c, Init(c, from), before), Exec(c, Init(c, from), before + [rise] + during);
            var resets := Resets(u.sent) - Resets(s.sent);
            && (c.maxAttempts > 0 ==> resets <= c.maxAttempts)
            && (u.alarm.exhausted ==> c.maxAttempts > 0 && resets == c.maxAttempts)
  {
    hide Step, Init, Resets, StaysActive, Tracked, LogInv, TimeInv, ModeInv;
    var s, t := Exec(c, Init(c, from), before), Exec(c, Init(c, from), before + [rise]);
    EpisodeBegins(c, from, before, rise, during);
    EpisodeRun(c, t, rise.at, during, |s.sent|);
    ExecAppend(c, Init(c, from), before + [rise], during);
    ExecKeeps(c, t, rise.at, during);
  }

  lemma InOrder(from: int, before: seq<Timed>, rise: Timed, during: seq<Timed>)
    requires Chronological(from, before + [rise] + during)
    ensures Chronological(from, before + [rise]) && Chronological(rise.at, during)
  {
    var all := before + [rise] + during;
    assert all[|before|] == rise;
    forall i | 0 <= i < |during|
      ensures during[i] == all[|before| + 1 + i]
    {
    }
    forall i | 0 <= i < |before| + 1
      ensures (before + [rise])[i] == all[i]
    {
    }
  }

  lemma EpisodeBegins(c: Config, from: int, before: seq<Timed>, rise: Timed, during: seq<Timed>)
    requires ValidConfig(c) && Chronological(from, before + [rise] + during)
    requires var s, t := Exec(c, Init(c, from), before), Exec(c, Init(c, from), before + [rise]);
             !s.alarm.active && t.alarm.active
    ensures var s, t := Exec(c, Init(c, from), before), Exec(c, Init(c, from), before + [rise]);
            && Inv(c, s, Clock(from, before)) && Clock(from, before) <= rise.at && rise.ev.Poll?
            && t == Step(c, s, rise)
            && Inv(c, t, rise.at) && Chronological(rise.at, during) && Tracked(t, |s.sent|)
            && Resets(t.sent) - t.alarm.attempts == Resets(s.sent)
  {
    hide Step, Init, Resets, Tracked, LogInv, TimeInv, ModeInv, SilentFrom, LastReset, Chronological;
    var s := Exec(c, Init(c, from), before);
    InOrder(from, before, rise, during);
    ReachBoth(c, from, before, rise);
    StepKeeps(c, s, Clock(from, before), rise);
    OnlyTicksRaise(c, s, rise);
    AlarmTick(c, s, Clock(from, before), rise, |s.sent|);
  }

  lemma OnlyTicksRaise(c: Config, s: State, e: Timed)
    requires !s.alarm.active && Step(c, s, e).alarm.active
    ensures e.ev.Poll?
  {
    hide OnPoll, ManualUpSpeed, ToInt16, HomingSpeed;
  }

  /** The pace: in one episode, manual resets included, an alarm reset sent by a
      tick follows the episode's last alarm reset by at least the interval. */
  lemma AutoResetPaced(c: Config, from: int, before: seq<Timed>, rise: Timed, during: seq<Timed>, tick: Timed)
    requires ValidConfig(c) && Chronological(from, before + [rise] + during) && tick.ev.Poll?
    requires Clock(from, before + [rise] + during) <= tick.at
    requires var s, t := Exec(c, Init(c, from), before), Exec(c, Init(c, from), before + [rise]);
             !s.alarm.active && t.alarm.active && StaysActive(c, t, during)
    requires Step(c, Exec(c, Init(c, from), before + [rise] + during), tick).alarm.active
    ensures var base := |Exec(c, Init(c, from), before).sent|;
            var u := Exec(c, Init(c, from), before + [rise] + during);
            var v := Step(c, u, tick);
            Resets(v.sent) > Resets(u.sent) ==>
              && LastReset(v.sent, base) == tick.at
              && (LastReset(u.sent, base) == 0 || tick.at - LastReset(u.sent, base) >= c.resetInterval)
  {
    hide Step, Init, Resets, StaysActive, LogInv, ModeInv, CounterInv, LastReset;
    var s, t := Exec(c, Init(c, from), before), Exec(c, Init(c, from), before + [rise]);
    EpisodeBegins(c, from, before, rise, during);
    EpisodeRun(c, t, rise.at, during, |s.sent|);
    ExecAppend(c, Init(c, from), before + [rise], during);
    ExecKeeps(c, t, rise.at, during);
    assert Clock(rise.at, during) == Clock(from, before + [rise] + during);
    AlarmTick(c, Exec(c, t, during), Clock(rise.at, during), tick, |s.sent|);
  }

  /** What LastReset stands for: the latest alarm reset at or after base. */
  lemma {:induction false} LastResetIsLast(log: seq<Sent>, base: nat, i: nat)
    requires base <= i < |log| && log[i].cmd.AlarmReset?
    ensures exists j :: i <= j < |log| && log[j].cmd.AlarmReset? && LastReset(log, base) == log[j].at
                        && forall k :: j < k < |log| ==> !log[k].cmd.AlarmReset?
  {
    var n := |log| - 1;
    if log[n].cmd.AlarmReset? {
      assert LastReset(log, base) == log[n].at;
    } else {
      var front := log[..n];
      LastResetIsLast(front, base, i);
      var j :| i <= j < n && front[j].cmd.AlarmReset? && LastReset(front, base) == front[j].at
               && forall k :: j < k < n ==> !front[k].cmd.AlarmReset?;
      assert log[j] == front[j];
      forall k | j < k < |log|
        ensures !log[k].cmd.AlarmReset?
      {
        if k < n {
          assert log[k] == front[k];
        }
      }
    }
  }
}
