/** When the driver may set the origin, and why a detected stall is a real one. */
module LiftHoming {
  import opened Bytes
  import opened LiftFrames
  import opened LiftSpec
  import opened LiftInvariant
  import opened LiftAlarm

  /** The number of times a log sets the origin. */
  function Origins(log: seq<Sent>): nat {
    if log == [] then 0
    else Origins(log[..|log| - 1]) + if log[|log| - 1].cmd.OriginReset? then 1 else 0
  }

  lemma OriginsAppend(log: seq<Sent>, x: Sent)
    ensures Origins(log + [x]) == Origins(log) + if x.cmd.OriginReset? then 1 else 0
  {
    assert (log + [x])[..|log|] == log;
  }

  /* ---- which ticks set the origin ---- */

  /** The state in which the motion half of a tick looks at the axis. */
  function AtMotion(c: Config, s: State, e: Timed): State
    requires e.ev.Poll?
  {
    var t := PollAlarm(c, s, e.at, e.ev.chunk);
    if AutoHomes(c, t, e.at) then StartHoming(c, t, e.at) else t
  }

  predicate StallSeen(c: Config, h: HomingRun, pos: int, now: int) {
    !WindowRestarts(c, h, pos) && StallConfirmed(c, h, now)
  }

  lemma CommandSetsNoOrigin(c: Config, s: State, e: Timed)
    requires !e.ev.Poll?
    ensures Origins(Step(c, s, e).sent) == Origins(s.sent)
  {
    hide Origins, ManualUpSpeed, ToInt16, HomingSpeed;
    var up := ManualUpSpeed(c, s.motion.homed);
    forall cmd: Command | !cmd.OriginReset?
      ensures Origins(s.sent + [Sent(e.at, cmd)]) == Origins(s.sent)
    {
      OriginsAppend(s.sent, Sent(e.at, cmd));
    }
    OriginsAppend(s.sent + [Sent(e.at, Velocity(0))], Sent(e.at, AlarmReset));
  }

  lemma RequestSetsNoOrigin(c: Config, s: State, now: int)
    ensures Origins(RequestAlarmReset(c, s, now, false).sent) == Origins(s.sent)
  {
    hide Origins;
    OriginsAppend(s.sent, Sent(now, Velocity(0)));
    OriginsAppend(s.sent + [Sent(now, Velocity(0))], Sent(now, AlarmReset));
  }

  lemma AlarmHalfSetsNoOrigin(c: Config, s: State, now: int, chunk: seq<byte>)
    ensures Origins(PollAlarm(c, s, now, chunk).sent) == Origins(s.sent)
  {
    hide Origins, Receive, Fresh, Alarm, RequestAlarmReset, RaiseAlarm;
    var t := Emit(s, now, MonitorRequest).(link := Receive(c.addresses, s.link, now, chunk));
    OriginsAppend(s.sent, Sent(now, MonitorRequest));
    RaiseEffect(t, now);
    OriginsAppend(t.sent, Sent(now, Velocity(0)));
    RequestSetsNoOrigin(c, t, now);
    RequestSetsNoOrigin(c, RaiseAlarm(t, now), now);
    OriginsAppend(t.sent, Sent(now, AbsPosition(t.resume.target)));
    OriginsAppend(t.sent, Sent(now, IncPosition(t.resume.target - t.link.position)));
  }

  lemma SpeedSetsNoOrigin(s: State, now: int, rpm: int)
    ensures Origins(SendVelocity(s, now, rpm).sent) == Origins(s.sent)
  {
    OriginsAppend(s.sent, Sent(now, Velocity(rpm)));
  }

  lemma HomingSetsOrigin(c: Config, s: State, now: int, live: bool, pos: int, di: byte)
    requires Origins(UpdateHoming(c, s, now, live, pos, di).sent) > Origins(s.sent)
    ensures live && !HomingTimedOut(c, s.homing, now)
    ensures LimitReached(c, di, live) || StallSeen(c, s.homing, pos, now)
  {
    hide Origins, CompleteHoming, SendVelocity, HomingTimedOut, WindowRestarts, StallConfirmed;
    SpeedSetsNoOrigin(s, now, 0);
    SpeedSetsNoOrigin(s, now, s.homing.dirSpeed);
  }

  /** With live data the alarm half leaves no alarm active only if the alarm bit
      is clear. */
  lemma IdleMeansClear(c: Config, s: State, now: int, live: bool, status: byte, pos: int)
    requires live && !UpdateAlarm(c, s, now, live, status, pos).alarm.active
    ensures !Alarm(status)
  {
    hide Alarm, RaiseAlarm, RequestAlarmReset;
    RaiseEffect(s, now);
    RequestEffect(c, RaiseAlarm(s, now), now, false, 0);
    RequestEffect(c, s, now, false, 0);
  }

  lemma MotionSetsOrigin(c: Config, s: State, e: Timed)
    requires e.ev.Poll? && Origins(Step(c, s, e).sent) > Origins(s.sent)
    ensures var u, l := AtMotion(c, s, e), Step(c, s, e).link;
            && u.motion.mode == Homing && u.link == l
            && Origins(UpdateHoming(c, u, e.at, Fresh(c, l, e.at), l.position, l.di).sent) > Origins(u.sent)
  {
    hide Origins, PollAlarm, AutoHomes, UpdateHoming, Fresh, AtLowerLimit, HomingVelocity, SendVelocity;
    var t, u := PollAlarm(c, s, e.at, e.ev.chunk), AtMotion(c, s, e);
    AlarmHalfSetsNoOrigin(c, s, e.at, e.ev.chunk);
    MotionFrame(c, t, e.at);
    var l, live := t.link, Fresh(c, t.link, e.at);
    SpeedSetsNoOrigin(UpdateMotion(c, u, e.at, live, l.position, l.di), e.at, 0);
  }

  /** Whatever state is reached: the origin is only set by a poll tick, in homing
      mode before the timeout, with fresh data whose alarm bit is clear, and
      because the lower limit or a stall was seen. */
  lemma OriginTick(c: Config, from: int, evs: seq<Timed>, e: Timed)
    requires ValidConfig(c) && Chronological(from, evs + [e])
    requires var s := Exec(c, Init(c, from), evs);
             Origins(Step(c, s, e).sent) > Origins(s.sent)
    ensures e.ev.Poll?
    ensures var s := Exec(c, Init(c, from), evs);
            var u, l := AtMotion(c, s, e), Step(c, s, e).link;
            && u.motion.mode == Homing && !HomingTimedOut(c, u.homing, e.at)
            && Fresh(c, l, e.at) && !Alarm(l.status)
            && (LimitReached(c, l.di, true) || StallSeen(c, u.homing, l.position, e.at))
  {
    hide Init, Step, Origins, HomingTimedOut, StallSeen, LimitReached, PollAlarm, UpdateHoming, Receive,
         LogInv, CounterInv, TimeInv, Fresh, Alarm;
    var s := Exec(c, Init(c, from), evs);
    ReachBoth(c, from, evs, e);
    if !e.ev.Poll? {
      CommandSetsNoOrigin(c, s, e);
    }
    MotionSetsOrigin(c, s, e);
    var u, l := AtMotion(c, s, e), Step(c, s, e).link;
    HomingSetsOrigin(c, u, e.at, Fresh(c, l, e.at), l.position, l.di);
    InvLater(c, s, Clock(from, evs), e.at);
    PollAlarmKeeps(c, s, e.at, e.ev.chunk);
    AlarmBitClear(c, s, e);
  }

  lemma AlarmBitClear(c: Config, s: State, e: Timed)
    requires e.ev.Poll?
    requires var t := PollAlarm(c, s, e.at, e.ev.chunk); !t.alarm.active && Fresh(c, t.link, e.at)
    ensures !Alarm(PollAlarm(c, s, e.at, e.ev.chunk).link.status)
  {
    hide UpdateAlarm, Fresh, Alarm, Receive;
    var t := Emit(s, e.at, MonitorRequest).(link := Receive(c.addresses, s.link, e.at, e.ev.chunk));
    LinkKept(c, t, e.at, Fresh(c, t.link, e.at), t.link.status, t.link.position);
    IdleMeansClear(c, t, e.at, Fresh(c, t.link, e.at), t.link.status, t.link.position);
  }

  lemma LinkKept(c: Config, s: State, now: int, live: bool, status: byte, pos: int)
    ensures UpdateAlarm(c, s, now, live, status, pos).link == s.link
  {
    hide Alarm;
  }

  /* ---- the stall window over a run ---- */

  /** What a poll tick saw of the axis. */
  datatype Seen = Seen(at: int, live: bool, pos: int)

  /** This event begins a homing attempt: a request that is honoured, or the automatic
      homing at start-up. */
  predicate Begins(c: Config, s: State, e: Timed) {
    match e.ev
    case Home(start) => start && c.positionControl && HomingStarts(c, s)
    case Poll(chunk) => AutoHomes(c, PollAlarm(c, s, e.at, chunk), e.at)
    case _ => false
  }

  /** The ticks since the current homing attempt began, oldest first. */
  function Observe(c: Config, s: State, h: seq<Seen>, e: Timed): seq<Seen> {
    var since := if Begins(c, s, e) then [] else h;
    if e.ev.Poll? then
      var l := PollAlarm(c, s, e.at, e.ev.chunk).link;
      since + [Seen(e.at, Fresh(c, l, e.at), l.position)]
    else since
  }

  function History(c: Config, s: State, h: seq<Seen>, evs: seq<Timed>): seq<Seen>
    decreases |evs|
  {
    if evs == [] then h else History(c, Step(c, s, evs[0]), Observe(c, s, h, evs[0]), evs[1..])
  }

  /** When the current attempt began; 0 before the first. */
  function Began(c: Config, s: State, b: int, e: Timed): int {
    if Begins(c, s, e) then e.at else b
  }

  function BeganOver(c: Config, s: State, b: int, evs: seq<Timed>): int
    decreases |evs|
  {
    if evs == [] then b else BeganOver(c, Step(c, s, evs[0]), Began(c, s, b, evs[0]), evs[1..])
  }

  /** h[j] opened a window of live ticks that all stayed within the stall threshold of it. */
  ghost predicate StillSince(c: Config, h: seq<Seen>, j: int) {
    && 0 <= j < |h| && h[j].live
    && forall i :: j < i < |h| ==> h[i].live && Abs(h[i].pos - h[j].pos) <= c.stallCounts
  }

  ghost predicate OpenedAt(c: Config, h: seq<Seen>, j: int, run: HomingRun) {
    StillSince(c, h, j) && h[j].at == run.stallSince && h[j].pos == run.stallRef
  }

  /** During homing, a tracked stall window is one of the attempt's own ticks. */
  ghost predicate Tracking(c: Config, s: State, h: seq<Seen>) {
    s.motion.mode == Homing && s.homing.tracking ==>
      exists j :: OpenedAt(c, h, j, s.homing)
  }

  /** A homing that is still under way after the alarm half was so before it. */
  lemma AlarmHalfHoming(c: Config, s: State, from: int, e: Timed)
    requires ValidConfig(c) && Inv(c, s, from) && from <= e.at && e.ev.Poll?
    requires PollAlarm(c, s, e.at, e.ev.chunk).motion.mode == Homing
    ensures s.motion.mode == Homing && PollAlarm(c, s, e.at, e.ev.chunk).homing == s.homing
  {
    hide LogInv, CounterInv, TimeInv, Receive, Fresh, Alarm, RequestAlarmReset, RaiseAlarm;
    var t := Emit(s, e.at, MonitorRequest).(link := Receive(c.addresses, s.link, e.at, e.ev.chunk));
    RaiseEffect(t, e.at);
    RequestEffect(c, RaiseAlarm(t, e.at), e.at, false, 0);
    RequestEffect(c, t, e.at, false, 0);
  }

  lemma WindowGrows(c: Config, h: seq<Seen>, x: Seen, j: int)
    requires StillSince(c, h, j) && x.live && Abs(x.pos - h[j].pos) <= c.stallCounts
    ensures StillSince(c, h + [x], j)
  {
  }

  lemma HomingTracks(c: Config, s: State, now: int, l: Link, live: bool, h: seq<Seen>)
    requires s.motion.mode == Homing && Tracking(c, s, h)
    ensures Tracking(c, UpdateHoming(c, s, now, live, l.position, l.di), h + [Seen(now, live, l.position)])
  {
    hide HomingTimedOut, LimitReached, StallConfirmed, BasePositionSpeed, ScaledPositionSpeed, StillSince,
         SendVelocity, Abs;
    SendVelocityEffect(s, now, s.homing.dirSpeed);
    var x := Seen(now, live, l.position);
    var t := UpdateHoming(c, s, now, live, l.position, l.di);
    if t.motion.mode == Homing && t.homing.tracking {
      if WindowRestarts(c, s.homing, l.position) {
        NewWindow(c, h, x);
        assert (h + [x])[|h|] == x;
        assert OpenedAt(c, h + [x], |h|, t.homing);
      } else {
        var j :| OpenedAt(c, h, j, s.homing);
        InWindow(c, h, j);
        WindowGrows(c, h, x, j);
        assert (h + [x])[j] == h[j];
        assert OpenedAt(c, h + [x], j, t.homing);
      }
    }
  }

  lemma InWindow(c: Config, h: seq<Seen>, j: int)
    requires StillSince(c, h, j)
    ensures 0 <= j < |h|
  {
  }

  lemma NewWindow(c: Config, h: seq<Seen>, x: Seen)
    requires x.live
    ensures StillSince(c, h + [x], |h|)
  {
  }

  lemma ManualVelocityManual(s: State, now: int, rpm: int)
    ensures ManualVelocity(s, now, rpm).motion.mode == Manual
  {
  }

  /* ---- when the attempt began ---- */

  ghost predicate Dated(s: State, b: int) { s.motion.mode == Homing ==> b > 0 && s.homing.start == b }

  /** A command that leaves the driver homing starts an attempt now, without a
      window, or leaves the attempt alone. */
  lemma CommandAttempt(c: Config, s: State, e: Timed)
    requires !e.ev.Poll? && Step(c, s, e).motion.mode == Homing
    ensures if Begins(c, s, e) then Step(c, s, e).homing.start == e.at && !Step(c, s, e).homing.tracking
            else s.motion.mode == Homing && Step(c, s, e).homing == s.homing
  {
    hide ManualVelocity, ManualUpSpeed, ToInt16, HomingVelocity, RequestAlarmReset, SendVelocity;
    match e.ev
    case TextCommand(_) =>
      var up := ManualUpSpeed(c, s.motion.homed);
      ManualVelocityManual(s, e.at, up);
      ManualVelocityManual(s, e.at, ToInt16(-up));
      ManualVelocityManual(s, e.at, 0);
    case VelocityCmd(rpm) => ManualVelocityManual(s, e.at, rpm);
    case Home(_) => SendVelocityEffect(WithMode(CancelResume(s.(pendingHome := false)), Manual), e.at, 0);
    case Reset(_) =>
      RequestEffect(c, ClearCycles(s.(alarm := s.alarm.(attempts := 0, exhausted := false))), e.at, true, 0);
    case _ =>
  }

  lemma MotionKeepsStart(c: Config, s: State, now: int, live: bool, pos: int, di: byte)
    ensures var t := UpdateMotion(c, s, now, live, pos, di);
            && t.homing.start == s.homing.start
            && (t.motion.mode == Homing ==> s.motion.mode == Homing)
  {
    hide HomingTimedOut, LimitReached, WindowRestarts, StallConfirmed, BasePositionSpeed, ScaledPositionSpeed;
  }

  lemma StepDates(c: Config, s: State, from: int, e: Timed, b: int)
    requires ValidConfig(c) && Inv(c, s, from) && from <= e.at && Dated(s, b)
    ensures Dated(Step(c, s, e), Began(c, s, b, e))
  {
    hide PollAlarm, LogInv, CounterInv, ModeInv, AutoHomes, UpdateMotion, Fresh, AtLowerLimit, HomingVelocity,
         SendVelocity, OnText, ManualVelocity, OnPosition, OnIncPosition, OnHome, OnReset, HomingStarts;
    if e.ev.Poll? {
      var t, u := PollAlarm(c, s, e.at, e.ev.chunk), AtMotion(c, s, e);
      var live := Fresh(c, t.link, e.at);
      if t.motion.mode == Homing {
        AlarmHalfHoming(c, s, from, e);
      }
      MotionKeepsStart(c, u, e.at, live, t.link.position, t.link.di);
      SendVelocityEffect(UpdateMotion(c, u, e.at, live, t.link.position, t.link.di), e.at, 0);
    } else if Step(c, s, e).motion.mode == Homing {
      CommandAttempt(c, s, e);
    }
  }

  lemma {:induction false} RunDates(c: Config, s: State, from: int, b: int, evs: seq<Timed>)
    requires ValidConfig(c) && Inv(c, s, from) && Chronological(from, evs) && Dated(s, b)
    ensures Dated(Exec(c, s, evs), BeganOver(c, s, b, evs))
    decreases |evs|
  {
    hide Step, Inv, Dated, Began;
    if evs != [] {
      StepKeeps(c, s, from, evs[0]);
      StepDates(c, s, from, evs[0], b);
      RunDates(c, Step(c, s, evs[0]), evs[0].at, Began(c, s, b, evs[0]), evs[1..]);
    }
  }

  predicate BeginsAt(c: Config, s: State, evs: seq<Timed>, i: nat)
    requires i < |evs|
  {
    Begins(c, Exec(c, s, evs[..i]), evs[i])
  }

  /** Event i begins the attempt that the run ends in. */
  ghost predicate LastBegin(c: Config, s: State, evs: seq<Timed>, i: nat) {
    i < |evs| && BeginsAt(c, s, evs, i) && forall k: nat :: i < k < |evs| ==> !BeginsAt(c, s, evs, k)
  }

  /** The time is that of the last event that begins an attempt. */
  lemma {:induction false} BeganByEvent(c: Config, s: State, b: int, evs: seq<Timed>)
    ensures || (BeganOver(c, s, b, evs) == b && forall k: nat :: k < |evs| ==> !BeginsAt(c, s, evs, k))
            || exists i: nat :: LastBegin(c, s, evs, i) && BeganOver(c, s, b, evs) == evs[i].at
    decreases |evs|
  {
    hide Step, Begins;
    if evs != [] {
      var e, t, rest := evs[0], Step(c, s, evs[0]), evs[1..];
      BeganByEvent(c, t, Began(c, s, b, e), rest);
      forall k: nat | k < |rest|
        ensures BeginsAt(c, s, evs, k + 1) == BeginsAt(c, t, rest, k)
      {
        assert evs[..k + 1][0] == e && evs[..k + 1][1..] == rest[..k];
        assert Exec(c, s, evs[..k + 1]) == Exec(c, t, rest[..k]);
      }
      assert evs[..0] == [];
      assert BeginsAt(c, s, evs, 0) == Begins(c, s, e);
      forall k: nat | 0 < k < |evs|
        ensures BeginsAt(c, s, evs, k) == BeginsAt(c, t, rest, k - 1)
      {
        assert BeginsAt(c, s, evs, (k - 1) + 1) == BeginsAt(c, t, rest, k - 1);
      }
      if i: nat :| LastBegin(c, t, rest, i) && BeganOver(c, t, Began(c, s, b, e), rest) == rest[i].at {
        assert LastBegin(c, s, evs, i + 1) && evs[i + 1] == rest[i];
      } else if Begins(c, s, e) {
        assert LastBegin(c, s, evs, 0);
      }
    }
  }

  lemma StepTracks(c: Config, s: State, from: int, e: Timed, h: seq<Seen>)
    requires ValidConfig(c) && Inv(c, s, from) && from <= e.at && Tracking(c, s, h)
    ensures Tracking(c, Step(c, s, e), Observe(c, s, h, e))
  {
    hide Step, Inv, OpenedAt, HomingStarts;
    if e.ev.Poll? {
      PollTracks(c, s, from, e, h);
    } else if Step(c, s, e).motion.mode == Homing && Step(c, s, e).homing.tracking {
      CommandAttempt(c, s, e);
    }
  }

  lemma PollTracks(c: Config, s: State, from: int, e: Timed, h: seq<Seen>)
    requires ValidConfig(c) && Inv(c, s, from) && from <= e.at && Tracking(c, s, h) && e.ev.Poll?
    ensures Tracking(c, Step(c, s, e), Observe(c, s, h, e))
  {
    hide PollAlarm, LogInv, CounterInv, TimeInv, ModeInv, OpenedAt, AutoHomes, UpdateHoming, Fresh,
         AtLowerLimit, HomingVelocity, SendVelocity;
    var t, u := PollAlarm(c, s, e.at, e.ev.chunk), AtMotion(c, s, e);
    var l, live := t.link, Fresh(c, t.link, e.at);
    var h' := if AutoHomes(c, t, e.at) then [] else h;
    if t.motion.mode == Homing {
      AlarmHalfHoming(c, s, from, e);
    }
    assert Tracking(c, u, h');
    if u.motion.mode == Homing {
      HomingTracks(c, u, e.at, l, live, h');
      var v := UpdateMotion(c, u, e.at, live, l.position, l.di);
      SendVelocityEffect(v, e.at, 0);
    } else {
      var v := UpdateMotion(c, u, e.at, live, l.position, l.di);
      SendVelocityEffect(v, e.at, 0);
    }
  }

  lemma {:induction false} RunTracks(c: Config, s: State, from: int, h: seq<Seen>, evs: seq<Timed>)
    requires ValidConfig(c) && Inv(c, s, from) && Chronological(from, evs) && Tracking(c, s, h)
    ensures Tracking(c, Exec(c, s, evs), History(c, s, h, evs))
    decreases |evs|
  {
    hide Step, Inv, Tracking, Observe;
    if evs != [] {
      StepKeeps(c, s, from, evs[0]);
      StepTracks(c, s, from, evs[0], h);
      RunTracks(c, Step(c, s, evs[0]), evs[0].at, Observe(c, s, h, evs[0]), evs[1..]);
    }
  }

  /** Homing completed by the stall branch is sound: some earlier tick of the
      same attempt exists such that every tick since was fresh, every position
      since stayed within the threshold of that tick's, the window lasted at
      least the stall time, and at least the minimum time has passed since the
      event that began the attempt. */
  lemma StallIsSound(c: Config, from: int, evs: seq<Timed>, e: Timed)
    requires ValidConfig(c) && Chronological(from, evs + [e])
    requires var s := Exec(c, Init(c, from), evs);
             Origins(Step(c, s, e).sent) > Origins(s.sent) && !LimitReached(c, Step(c, s, e).link.di, true)
    ensures e.ev.Poll?
    ensures var s := Exec(c, Init(c, from), evs);
            var h := Observe(c, s, History(c, Init(c, from), [], evs), e);
            && |h| > 0 && h[|h| - 1].at == e.at
            && (exists j :: StillSince(c, h, j) && j < |h| - 1 && e.at - h[j].at >= c.stallTime)
            && (exists i: nat :: LastBegin(c, Init(c, from), evs, i) && e.at - evs[i].at >= c.homeMin)
            && !Begins(c, s, e)
  {
    hide Init, Step, Origins, PollAlarm, LogInv, CounterInv, TimeInv, Fresh, StillSince, AutoHomes,
         HomingTimedOut, LimitReached, HomingVelocity, Abs;
    var s := Exec(c, Init(c, from), evs);
    OriginTick(c, from, evs, e);
    ReachBoth(c, from, evs, e);
    var h0 := History(c, Init(c, from), [], evs);
    BeganByEvent(c, Init(c, from), 0, evs);
    InitInv(c, from);
    InitIdle(c, from);
    assert forall i :: 0 <= i < |evs| ==> evs[i] == (evs + [e])[i];
    RunTracks(c, Init(c, from), from, [], evs);
    RunDates(c, Init(c, from), from, 0, evs);
    var t, u := PollAlarm(c, s, e.at, e.ev.chunk), AtMotion(c, s, e);
    TickLinks(c, s, e);
    if AutoHomes(c, t, e.at) {
      assert u.homing.tracking == false;
    } else {
      AlarmHalfHoming(c, s, Clock(from, evs), e);
      var j :| OpenedAt(c, h0, j, u.homing);
      InWindow(c, h0, j);
      var x := Seen(e.at, Fresh(c, t.link, e.at), t.link.position);
      WindowGrows(c, h0, x, j);
      assert (h0 + [x])[j] == h0[j];
    }
  }

  lemma InitIdle(c: Config, from: int)
    ensures Init(c, from).motion.mode == Manual
  {
  }

  lemma TickLinks(c: Config, s: State, e: Timed)
    requires e.ev.Poll?
    ensures Step(c, s, e).link == PollAlarm(c, s, e.at, e.ev.chunk).link
  {
    hide PollAlarm, PollMotion;
    MotionFrame(c, PollAlarm(c, s, e.at, e.ev.chunk), e.at);
  }

  /* ---- the results above are about something: a homing that stalls ---- */

  /** A monitor reply at position p, without an alarm. */
  function Report(a: Addresses, p: int): seq<byte> {
    OnWire(a, [Transmission([], 0, Frame(PID_MONITOR, MonitorData(0, [0, 0, 0, 0], 0, p, 0)))])
  }

  /** One tick of an undisturbed homing that receives such a reply. */
  lemma HomingTick(c: Config, s: State, now: int, p: int)
    requires s.motion.mode == Homing && !s.alarm.active && !s.pendingHome && s.link.rx == []
    requires !c.autoRelease && c.timeout > 0 && -0x8000_0000 <= p < 0x8000_0000
    ensures Step(c, s, Timed(now, Poll(Report(c.addresses, p))))
            == UpdateHoming(c, Emit(s, now, MonitorRequest).(link := Link([], true, 0, 0, p, 0, now)),
                            now, true, p, 0)
  {
    hide UpdateHoming, OnWire, Receive, UpdateAlarm;
    var t := Transmission([], 0, Frame(PID_MONITOR, MonitorData(0, [0, 0, 0, 0], 0, p, 0)));
    var l := Link([], true, 0, 0, p, 0, now);
    assert [] + [t] == [t] && MonitorData(0, [0, 0, 0, 0], 0, p, 0) + [] == MonitorData(0, [0, 0, 0, 0], 0, p, 0);
    assert s.link.rx + Report(c.addresses, p) == Report(c.addresses, p);
    MonitorValuesRecovered(c, s.link, now, [], t, 0, [0, 0, 0, 0], 0, p, 0, [], Report(c.addresses, p));
    var u := Emit(s, now, MonitorRequest).(link := l);
    NoAlarm(c, u, now, p);
  }

  lemma NoAlarm(c: Config, s: State, now: int, p: int)
    requires !s.alarm.active
    ensures UpdateAlarm(c, s, now, true, 0, p) == s
  {
    hide RaiseAlarm, RequestAlarmReset;
  }

  const EXAMPLE := Config(Addresses(183, 172, 1), 100, 1000, true, 0, 50, 5, 1500, 1000, 40000, 20, false,
                          1.0, false, 4, false, 2000, 1000, true, 2000, 5, 3)

  /** Homing starts at 1, its window opens at 2, and the axis is still there at 2002:
      StallIsSound and OriginTick apply to this run. */
  lemma StallHappens() returns (evs: seq<Timed>, e: Timed)
    ensures ValidConfig(EXAMPLE) && Chronological(1, evs + [e])
    ensures var s := Exec(EXAMPLE, Init(EXAMPLE, 1), evs);
            Origins(Step(EXAMPLE, s, e).sent) > Origins(s.sent)
            && !LimitReached(EXAMPLE, Step(EXAMPLE, s, e).link.di, true)
  {
    var c, chunk := EXAMPLE, Report(EXAMPLE.addresses, 7);
    var home, open := Timed(1, Home(true)), Timed(2, Poll(chunk));
    evs, e := [home, open], Timed(2002, Poll(chunk));
    hide UpdateHoming, Report, Origins;
    var s0 := Init(c, 1);
    var s1 := Step(c, s0, home);
    assert s1.motion.mode == Homing && s1.homing.start == 1 && !s1.homing.tracking;
    HomingTick(c, s1, 2, 7);
    WindowOpens(c, Emit(s1, 2, MonitorRequest).(link := Link([], true, 0, 0, 7, 0, 2)), 2, 7);
    var s2 := Step(c, s1, open);
    HomingTick(c, s2, 2002, 7);
    var u := Emit(s2, 2002, MonitorRequest).(link := Link([], true, 0, 0, 7, 0, 2002));
    WindowCloses(c, u, 2002, 7);
    OriginsAppend(s2.sent, Sent(2002, MonitorRequest));
    TwoSteps(c, s0, home, open);
  }

  lemma TwoSteps(c: Config, s: State, a: Timed, b: Timed)
    ensures Exec(c, s, [a, b]) == Step(c, Step(c, s, a), b)
  {
    hide Step;
    assert [a, b][1..] == [b] && [b][1..] == [];
    assert Exec(c, Step(c, s, a), [b]) == Exec(c, Step(c, Step(c, s, a), b), []);
  }

  lemma WindowOpens(c: Config, s: State, now: int, p: int)
    requires s.motion.mode == Homing && !s.homing.tracking && !c.useLimitSwitch
    requires now - s.homing.start <= c.homeTimeout
    ensures var t := UpdateHoming(c, s, now, true, p, 0);
            t == s.(homing := s.homing.(stallRef := p, stallSince := now, tracking := true),
                    watch := t.watch, sent := t.sent)
  {
  }

  lemma WindowCloses(c: Config, s: State, now: int, p: int)
    requires s.motion.mode == Homing && s.homing.tracking && s.homing.stallRef == p && !c.useLimitSwitch
    requires now - s.homing.start <= c.homeTimeout && c.stallCounts >= 0 && StallConfirmed(c, s.homing, now)
    ensures var t := UpdateHoming(c, s, now, true, p, 0);
            Origins(t.sent) > Origins(s.sent) && t.link == s.link
  {
    hide Origins, BasePositionSpeed, ScaledPositionSpeed;
    var v := SendVelocity(s, now, s.homing.dirSpeed);
    SpeedSetsNoOrigin(s, now, s.homing.dirSpeed);
    SpeedSetsNoOrigin(v, now, 0);
    var w := SendVelocity(v, now, 0);
    OriginsAppend(w.sent, Sent(now, OriginReset));
    OriginsAppend(w.sent + [Sent(now, OriginReset)], Sent(now, PositionVelocity(ScaledPositionSpeed(c))));
  }
}
