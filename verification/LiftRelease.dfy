/** A velocity command against a blocked axis is released in bounded time. */
module LiftRelease {
  import opened Bytes
  import opened LiftFrames
  import opened LiftSpec
  import opened LiftInvariant
  import opened LiftAlarm

  /** The log grew from a to b, among others by a stop command at this time. */
  ghost predicate AddsStop(a: seq<Sent>, b: seq<Sent>, now: int) {
    exists i :: |a| <= i < |b| && b[i] == Sent(now, Velocity(0))
  }

  /** This event sends the stop command. */
  ghost predicate Stops(c: Config, s: State, e: Timed) {
    AddsStop(s.sent, Step(c, s, e).sent, e.at)
  }

  /** Manual mode with a velocity command in force and no move to resume. */
  predicate Driving(c: Config, s: State) {
    c.autoRelease && s.motion.mode == Manual && s.resume.mode == Manual && s.watch.cmd != 0
  }

  /** The automatic homing takes over in this tick. */
  predicate HomesNow(c: Config, s: State, e: Timed) {
    e.ev.Poll? && AutoHomes(c, PollAlarm(c, s, e.at, e.ev.chunk), e.at)
  }

  /** What a tick with live data does to the watch of an axis that it does not stop. */
  ghost predicate Watches(c: Config, w: Watch, now: int, pos: int, w': Watch) {
    if now - w.since < c.releaseGrace then w' == w
    else if !w.refValid || Abs(pos - w.ref) > c.stallCounts then
      w' == w.(ref := pos, refTime := now, refValid := true)
    else w' == w && now - w.refTime < c.releaseStop
  }

  lemma AlarmHalfDriving(c: Config, s: State, now: int, live: bool, status: byte, pos: int)
    requires Driving(c, s)
    ensures var t := UpdateAlarm(c, s, now, live, status, pos);
            && s.sent <= t.sent
            && t == s.(watch := t.watch, alarm := t.alarm, sent := t.sent)
            && (t.watch == s.watch || AddsStop(s.sent, t.sent, now))
  {
    hide Alarm, RequestAlarmReset;
    RequestStops(c, s, now);
    var t := RaiseAlarm(s, now);
    assert t.sent[|s.sent|] == Sent(now, Velocity(0));
    RequestStops(c, t, now);
  }

  lemma RequestStops(c: Config, s: State, now: int)
    ensures var t := RequestAlarmReset(c, s, now, false);
            && s.sent <= t.sent
            && t == s.(watch := t.watch, alarm := t.alarm, sent := t.sent)
            && (t.watch == s.watch || AddsStop(s.sent, t.sent, now))
  {
    var t := RequestAlarmReset(c, s, now, false);
    if t.watch != s.watch {
      assert t.sent[|s.sent|] == Sent(now, Velocity(0));
    }
  }

  lemma ReleaseEffect(c: Config, s: State, now: int, pos: int, di: byte)
    requires Driving(c, s)
    ensures var t := ReleaseIfBlocked(c, s, now, true, pos, di);
            && s.sent <= t.sent
            && t == s.(watch := t.watch, sent := t.sent)
            && (AddsStop(s.sent, t.sent, now) || Watches(c, s.watch, now, pos, t.watch))
  {
    hide AtLowerLimit;
    var t := ReleaseIfBlocked(c, s, now, true, pos, di);
    if t.sent != s.sent {
      assert t.sent[|s.sent|] == Sent(now, Velocity(0));
    }
  }

  lemma TickDriving(c: Config, s: State, e: Timed)
    requires Driving(c, s) && e.ev.Poll? && Fresh(c, Step(c, s, e).link, e.at) && !HomesNow(c, s, e)
    ensures var t := Step(c, s, e);
            Stops(c, s, e) || (Driving(c, t) && Watches(c, s.watch, e.at, t.link.position, t.watch))
  {
    hide UpdateAlarm, ReleaseIfBlocked, Receive, Fresh, Watches, AddsStop;
    var now := e.at;
    var t0 := Emit(s, now, MonitorRequest).(link := Receive(c.addresses, s.link, now, e.ev.chunk));
    AlarmHalfDriving(c, t0, now, Fresh(c, t0.link, now), t0.link.status, t0.link.position);
    var t1 := PollAlarm(c, s, now, e.ev.chunk);
    MotionFrame(c, t1, now);
    var t := Step(c, s, e);
    if t1.watch == t0.watch {
      ReleaseEffect(c, t1, now, t1.link.position, t1.link.di);
      if AddsStop(t1.sent, t.sent, now) {
        Later(s.sent, t1.sent, t.sent, now);
      } else {
        StillDriving(c, t1.watch, now, t1.link.position, t.watch);
      }
    } else {
      ReleaseGrows(c, t1, now, Fresh(c, t1.link, now), t1.link.position, t1.link.di);
      Later(s.sent, t0.sent, t1.sent, now);
      Earlier(s.sent, t1.sent, t.sent, now);
    }
  }

  lemma StillDriving(c: Config, w: Watch, now: int, pos: int, w': Watch)
    requires Watches(c, w, now, pos, w')
    ensures w'.cmd == w.cmd && w'.since == w.since
  {
  }

  lemma ReleaseGrows(c: Config, s: State, now: int, live: bool, pos: int, di: byte)
    ensures s.sent <= ReleaseIfBlocked(c, s, now, live, pos, di).sent
  {
    hide AtLowerLimit;
  }

  lemma Later(a: seq<Sent>, b: seq<Sent>, d: seq<Sent>, now: int)
    requires a <= b <= d && AddsStop(b, d, now)
    ensures AddsStop(a, d, now)
  {
  }

  lemma Earlier(a: seq<Sent>, b: seq<Sent>, d: seq<Sent>, now: int)
    requires a <= b <= d && AddsStop(a, b, now)
    ensures AddsStop(a, d, now)
  {
    var i :| |a| <= i < |b| && b[i] == Sent(now, Velocity(0));
    assert d[i] == b[i];
  }

  /** An event between the ticks that leaves the command in force: one the driver
      ignores, the same speed again, the end of a homing that is not under way, or a
      reset without an alarm. */
  predicate LeavesCommand(c: Config, s: State, ev: Event) {
    !Acts(c, s, ev) ||
    match ev
    case TextCommand(text) => TextSpeed(c, s.motion.homed, text) == s.watch.cmd
    case VelocityCmd(rpm) => rpm == s.watch.cmd
    case Home(start) => !start
    case Reset(_) => !s.alarm.active
    case _ => false
  }

  /** Such an event does not restart the watch. */
  lemma CommandLeft(c: Config, s: State, e: Timed)
    requires Driving(c, s) && !e.ev.Poll? && LeavesCommand(c, s, e.ev)
    ensures Driving(c, Step(c, s, e)) && Step(c, s, e).watch == s.watch
  {
    hide ManualUpSpeed, ToInt16, HomingSpeed;
  }

  /** Any sequence of ticks and of events that leave the command in force.  The ticks
      have live data, are at most `period` apart, counting from `last`, report the
      position p from time t0 on, and none starts the automatic homing. */
  ghost predicate Blocked(c: Config, s: State, last: int, from: int, evs: seq<Timed>, period: int, t0: int, p: int)
    decreases |evs|
  {
    evs == [] ||
    var e, t := evs[0], Step(c, s, evs[0]);
    && from <= e.at
    && if e.ev.Poll? then
         && e.at <= last + period && Fresh(c, t.link, e.at) && !HomesNow(c, s, e)
         && (e.at >= t0 ==> t.link.position == p)
         && Blocked(c, t, e.at, e.at, evs[1..], period, t0, p)
       else
         LeavesCommand(c, s, e.ev) && Blocked(c, t, last, e.at, evs[1..], period, t0, p)
  }

  /** Some event up to the deadline sends the stop command. */
  ghost predicate StoppedBy(c: Config, s: State, evs: seq<Timed>, deadline: int) {
    exists k :: 0 <= k < |evs| && evs[k].at <= deadline && Stops(c, Exec(c, s, evs[..k]), evs[k])
  }

  lemma StopsFirst(c: Config, s: State, evs: seq<Timed>, deadline: int)
    requires evs != [] && evs[0].at <= deadline && Stops(c, s, evs[0])
    ensures StoppedBy(c, s, evs, deadline)
  {
    hide Step, Stops;
    assert evs[..0] == [];
    assert Exec(c, s, evs[..0]) == s;
  }

  lemma StopsLater(c: Config, s: State, evs: seq<Timed>, deadline: int)
    requires evs != [] && StoppedBy(c, Step(c, s, evs[0]), evs[1..], deadline)
    ensures StoppedBy(c, s, evs, deadline)
  {
    hide Step, Stops;
    var t, rest := Step(c, s, evs[0]), evs[1..];
    var k :| 0 <= k < |rest| && rest[k].at <= deadline && Stops(c, Exec(c, t, rest[..k]), rest[k]);
    assert evs[..k + 1][0] == evs[0] && evs[..k + 1][1..] == rest[..k];
    assert Exec(c, s, evs[..k + 1]) == Exec(c, t, rest[..k]);
    assert evs[k + 1] == rest[k];
  }

  /** The run ends with a tick after this time. */
  predicate TickAfter(evs: seq<Timed>, time: int) {
    evs != [] && evs[|evs| - 1].ev.Poll? && evs[|evs| - 1].at >= time
  }

  lemma TickStillAhead(evs: seq<Timed>, time: int)
    requires TickAfter(evs, time) && (!evs[0].ev.Poll? || evs[0].at < time)
    ensures TickAfter(evs[1..], time)
  {
    assert evs[1..][|evs| - 2] == evs[|evs| - 1];
  }

  function StopTime(c: Config): nat { if c.releaseStop > 0 then c.releaseStop else 0 }

  /** Once the reference stands at the blocked position, the release is due. */
  lemma {:induction false} ReferenceRunsOut(c: Config, s: State, last: int, from: int, evs: seq<Timed>,
                                            period: int, t0: int, p: int, deadline: int)
    requires Driving(c, s) && Blocked(c, s, last, from, evs, period, t0, p)
    requires s.watch.refValid && Abs(p - s.watch.ref) <= c.stallCounts
    requires from >= t0 && from - s.watch.since >= c.releaseGrace
    requires last + period <= deadline && s.watch.refTime + StopTime(c) + period <= deadline
    requires TickAfter(evs, s.watch.refTime + StopTime(c))
    ensures StoppedBy(c, s, evs, deadline)
    decreases |evs|
  {
    hide Step, Stops, Fresh, Driving, StoppedBy, LeavesCommand;
    var e := evs[0];
    var t := Step(c, s, e);
    if !e.ev.Poll? {
      CommandLeft(c, s, e);
      TickStillAhead(evs, s.watch.refTime + StopTime(c));
      ReferenceRunsOut(c, t, last, e.at, evs[1..], period, t0, p, deadline);
      StopsLater(c, s, evs, deadline);
    } else {
      TickDriving(c, s, e);
      if Stops(c, s, e) {
        StopsFirst(c, s, evs, deadline);
      } else {
        assert e.at < s.watch.refTime + StopTime(c);
        TickStillAhead(evs, s.watch.refTime + StopTime(c));
        ReferenceRunsOut(c, t, e.at, e.at, evs[1..], period, t0, p, deadline);
        StopsLater(c, s, evs, deadline);
      }
    }
  }

  lemma {:induction false} ReleaseDue(c: Config, s: State, last: int, from: int, evs: seq<Timed>,
                                      period: int, t0: int, p: int, start: int)
    requires ValidConfig(c) && Inv(c, s, from)
    requires Driving(c, s) && Blocked(c, s, last, from, evs, period, t0, p)
    requires c.stallCounts >= 0 && period >= 0
    requires start >= t0 && start >= s.watch.since + c.releaseGrace && last <= start
    requires TickAfter(evs, start + StopTime(c) + period + 1)
    ensures StoppedBy(c, s, evs, start + StopTime(c) + 2 * period)
    decreases |evs|
  {
    hide Step, Stops, StoppedBy, Fresh, Driving, LogInv, ModeInv, CounterInv, LeavesCommand;
    var e, deadline := evs[0], start + StopTime(c) + 2 * period;
    var t := Step(c, s, e);
    StepKeeps(c, s, from, e);
    if !e.ev.Poll? {
      CommandLeft(c, s, e);
      TickStillAhead(evs, start + StopTime(c) + period + 1);
      ReleaseDue(c, t, last, e.at, evs[1..], period, t0, p, start);
      StopsLater(c, s, evs, deadline);
    } else {
      TickDriving(c, s, e);
      if Stops(c, s, e) {
        StopsFirst(c, s, evs, deadline);
      } else {
        StillDriving(c, s.watch, e.at, t.link.position, t.watch);
        TickStillAhead(evs, start + StopTime(c) + period + 1);
        if e.at < start {
          ReleaseDue(c, t, e.at, e.at, evs[1..], period, t0, p, start);
        } else {
          EarlierTick(evs[1..], start + StopTime(c) + period + 1, t.watch.refTime + StopTime(c));
          ReferenceRunsOut(c, t, e.at, e.at, evs[1..], period, t0, p, deadline);
        }
        StopsLater(c, s, evs, deadline);
      }
    }
  }

  lemma EarlierTick(evs: seq<Timed>, time: int, sooner: int)
    requires TickAfter(evs, time) && sooner <= time
    ensures TickAfter(evs, sooner)
  {
  }

  function Max(a: int, b: int): int { if a >= b then a else b }

  /** When the release can begin to count: the axis stands still, the grace is over,
      and the run has begun. */
  function CountingFrom(c: Config, s: State, now: int, t0: int): int {
    Max(now, Max(t0, s.watch.since + c.releaseGrace))
  }

  /** In manual mode with automatic release, a nonzero velocity command that is not
      replaced, though it may be sent again, on an axis reported at one position from
      t0 on by live ticks at most `period` apart, is stopped no later than
      max(t0, command time + grace) + stop time + 2 * period. */
  lemma BlockedCommandIsReleased(c: Config, from: int, before: seq<Timed>, evs: seq<Timed>,
                                 period: int, t0: int, p: int)
    requires ValidConfig(c) && Chronological(from, before)
    requires c.stallCounts >= 0 && period >= 0
    requires var s, now := Exec(c, Init(c, from), before), Clock(from, before);
             && Driving(c, s) && Blocked(c, s, now, now, evs, period, t0, p)
             && TickAfter(evs, CountingFrom(c, s, now, t0) + StopTime(c) + period + 1)
    ensures var s, now := Exec(c, Init(c, from), before), Clock(from, before);
            StoppedBy(c, s, evs, CountingFrom(c, s, now, t0) + StopTime(c) + 2 * period)
  {
    hide Init, Step, Inv, Driving, Blocked, StoppedBy, TickAfter;
    InitInv(c, from);
    ExecKeeps(c, Init(c, from), from, before);
    var s, now := Exec(c, Init(c, from), before), Clock(from, before);
    ReleaseDue(c, s, now, now, evs, period, t0, p, CountingFrom(c, s, now, t0));
  }

  /** With a negative threshold every position counts as movement: then the one release
      left is that of a down command at the lower limit. */
  lemma NegativeThreshold(c: Config, s: State, now: int, live: bool, pos: int, di: byte)
    requires c.stallCounts < 0
    ensures ReleaseIfBlocked(c, s, now, live, pos, di).sent != s.sent <==>
              c.autoRelease && s.motion.mode == Manual && s.watch.cmd < 0 && AtLowerLimit(c, di, live)
  {
    assert |s.sent + [Sent(now, Velocity(0))]| > |s.sent|;
  }
}
