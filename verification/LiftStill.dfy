/** A velocity command is released only at the lower limit or when the axis has stood still
    under it: never before the grace and the stop time are over. */
module LiftStill {
  import opened Bytes
  import opened LiftFrames
  import opened LiftSpec
  import opened LiftInvariant
  import opened LiftAlarm
  import opened LiftHoming
  import opened LiftMotion
  import Bits

  /* ---- the velocity in force, read off the log ---- */

  /** The last frame of the log changes the velocity in force. */
  predicate Changes(log: seq<Sent>) {
    log != [] && log[|log| - 1].cmd.Velocity? && log[|log| - 1].cmd.rpm != LastVelocity(log[..|log| - 1])
  }

  /** When the velocity in force was first commanded; 0 if none was. */
  function SpeedSince(log: seq<Sent>): int {
    if log == [] then 0 else if Changes(log) then log[|log| - 1].at else SpeedSince(log[..|log| - 1])
  }

  function CountChanges(log: seq<Sent>): nat {
    if log == [] then 0 else CountChanges(log[..|log| - 1]) + if Changes(log) then 1 else 0
  }

  lemma LogStep(log: seq<Sent>, x: Sent)
    ensures var change := x.cmd.Velocity? && x.cmd.rpm != LastVelocity(log);
            && LastVelocity(log + [x]) == (if x.cmd.Velocity? then x.cmd.rpm else LastVelocity(log))
            && SpeedSince(log + [x]) == (if change then x.at else SpeedSince(log))
            && CountChanges(log + [x]) == CountChanges(log) + (if change then 1 else 0)
  {
    assert (log + [x])[..|log|] == log;
  }

  /** The watch follows the log. */
  ghost predicate Tuned(s: State) {
    s.watch.cmd == LastVelocity(s.sent) && s.watch.since == SpeedSince(s.sent)
  }

  /** From s to t the watch changes only with the velocity in force, and then its reference
      is gone. */
  ghost predicate Follows(s: State, t: State) {
    && Tuned(t) && s.sent <= t.sent && CountChanges(s.sent) <= CountChanges(t.sent)
    && (CountChanges(t.sent) == CountChanges(s.sent) ==> t.watch == s.watch)
    && (CountChanges(t.sent) > CountChanges(s.sent) ==> !t.watch.refValid)
  }

  lemma FollowsThrough(s: State, t: State, u: State)
    requires Follows(s, t) && Follows(t, u)
    ensures Follows(s, u)
  {
  }

  lemma Same(s: State, t: State)
    requires Tuned(s) && t.sent == s.sent && t.watch == s.watch
    ensures Follows(s, t)
  {
  }

  lemma SendFollows(s: State, now: int, rpm: int)
    requires Tuned(s)
    ensures Follows(s, SendVelocity(s, now, rpm))
  {
    hide LastVelocity, SpeedSince, CountChanges;
    LogStep(s.sent, Sent(now, Velocity(rpm)));
  }

  lemma EmitFollows(s: State, now: int, cmd: Command)
    requires Tuned(s) && !cmd.Velocity?
    ensures Follows(s, Emit(s, now, cmd))
  {
    hide LastVelocity, SpeedSince, CountChanges;
    LogStep(s.sent, Sent(now, cmd));
  }

  /* ---- each part of an event ---- */

  lemma RequestFollows(c: Config, s: State, now: int, manual: bool)
    requires Tuned(s)
    ensures Follows(s, RequestAlarmReset(c, s, now, manual))
  {
    hide LastVelocity, SpeedSince, CountChanges, SendVelocity;
    var u := SendVelocity(s, now, 0);
    SendFollows(s, now, 0);
    EmitFollows(u, now, AlarmReset);
    FollowsThrough(s, u, Emit(u, now, AlarmReset));
  }

  lemma RaiseFollows(s: State, now: int)
    requires Tuned(s)
    ensures Follows(s, RaiseAlarm(s, now))
  {
    hide LastVelocity, SpeedSince, CountChanges;
    SendFollows(s.(alarm := AlarmState(true, 0, false, 0)), now, 0);
  }

  lemma ResumeFollows(c: Config, s: State, now: int, pos: int)
    requires Tuned(s)
    ensures Follows(s, ResumeAfterAlarm(c, ClearAlarm(s), now, pos))
  {
    hide LastVelocity, SpeedSince, CountChanges;
    var t := ResumeAfterAlarm(c, ClearAlarm(s), now, pos);
    LogStep(s.sent, Sent(now, AbsPosition(s.resume.target)));
    LogStep(s.sent, Sent(now, IncPosition(s.resume.target - pos)));
  }

  lemma AlarmFollows(c: Config, s: State, now: int, live: bool, status: byte, pos: int)
    requires Tuned(s)
    ensures Follows(s, UpdateAlarm(c, s, now, live, status, pos))
  {
    hide Follows, Tuned, RaiseAlarm, RequestAlarmReset, ResumeAfterAlarm, Alarm;
    RaiseFollows(s, now);
    FollowsTuned(s, RaiseAlarm(s, now));
    ResumeFollows(c, s, now, pos);
    RequestFollows(c, s, now, false);
    var t := RaiseAlarm(s, now);
    RequestFollows(c, t, now, false);
    FollowsThrough(s, t, RequestAlarmReset(c, t, now, false));
    Same(s, s);
  }

  lemma FollowsTuned(s: State, t: State)
    requires Follows(s, t)
    ensures Tuned(t)
  {
  }

  lemma PollAlarmFollows(c: Config, s: State, now: int, chunk: seq<byte>)
    requires Tuned(s)
    ensures Follows(s, PollAlarm(c, s, now, chunk))
  {
    hide LastVelocity, SpeedSince, CountChanges, UpdateAlarm, Receive, Fresh;
    EmitFollows(s, now, MonitorRequest);
    var t := Emit(s, now, MonitorRequest).(link := Receive(c.addresses, s.link, now, chunk));
    AlarmFollows(c, t, now, Fresh(c, t.link, now), t.link.status, t.link.position);
    FollowsThrough(s, t, PollAlarm(c, s, now, chunk));
  }

  lemma CompletesFollow(c: Config, s: State, now: int)
    requires Tuned(s)
    ensures Follows(s, CompleteHoming(c, s, now))
  {
    hide LastVelocity, SpeedSince, CountChanges, SendVelocity, ScaledPositionSpeed, BasePositionSpeed;
    var u := SendVelocity(s, now, 0);
    SendFollows(s, now, 0);
    LogStep(u.sent, Sent(now, OriginReset));
    LogStep(u.sent + [Sent(now, OriginReset)], Sent(now, PositionVelocity(ScaledPositionSpeed(c))));
  }

  lemma HomingFollows(c: Config, s: State, now: int, live: bool, pos: int, di: byte)
    requires Tuned(s)
    ensures Follows(s, UpdateHoming(c, s, now, live, pos, di))
  {
    hide LastVelocity, SpeedSince, CountChanges, SendVelocity, CompleteHoming, LimitReached, WindowRestarts,
         StallConfirmed, HomingTimedOut;
    var u := SendVelocity(s, now, s.homing.dirSpeed);
    SendFollows(s, now, 0);
    SendFollows(s, now, s.homing.dirSpeed);
    CompletesFollow(c, s, now);
    CompletesFollow(c, u, now);
    FollowsThrough(s, u, CompleteHoming(c, u, now));
  }

  lemma MotionFollows(c: Config, s: State, now: int, live: bool, pos: int, di: byte)
    requires Tuned(s)
    ensures Follows(s, UpdateMotion(c, s, now, live, pos, di))
  {
    hide LastVelocity, SpeedSince, CountChanges, UpdateHoming, Abs;
    HomingFollows(c, s, now, live, pos, di);
  }

  lemma ManualFollows(s: State, now: int, rpm: int)
    requires Tuned(s)
    ensures Follows(s, ManualVelocity(s, now, rpm))
  {
    hide LastVelocity, SpeedSince, CountChanges;
    SendFollows(CancelResume(WithMode(s, Manual)), now, rpm);
  }

  lemma ResetFollows(c: Config, s: State, now: int, go: bool)
    requires Tuned(s)
    ensures Follows(s, OnReset(c, s, now, go))
  {
    hide LastVelocity, SpeedSince, CountChanges, RequestAlarmReset;
    var t := ClearCycles(s.(alarm := s.alarm.(attempts := 0, exhausted := false)));
    RequestFollows(c, t, now, true);
    EmitFollows(t, now, AlarmReset);
  }

  lemma HomeFollows(c: Config, s: State, now: int, start: bool)
    requires Tuned(s)
    ensures Follows(s, OnHome(c, s, now, start))
  {
    hide LastVelocity, SpeedSince, CountChanges, HomingStarts, HomingVelocity;
    SendFollows(WithMode(CancelResume(s.(pendingHome := false)), Manual), now, 0);
  }

  lemma MoveFollows(s: State, now: int, counts: int)
    requires Tuned(s)
    ensures Follows(s, OnPosition(s, now, counts)) && Follows(s, OnIncPosition(s, now, counts))
  {
    hide LastVelocity, SpeedSince, CountChanges;
    LogStep(s.sent, Sent(now, AbsPosition(counts)));
    LogStep(s.sent, Sent(now, IncPosition(counts)));
  }

  lemma CommandFollows(c: Config, s: State, e: Timed)
    requires Tuned(s) && !e.ev.Poll?
    ensures Follows(s, Step(c, s, e))
  {
    hide Follows, Tuned, ManualVelocity, OnPosition, OnIncPosition, OnHome, OnReset, ManualUpSpeed, ToInt16;
    Same(s, s);
    match e.ev
    case TextCommand(_) =>
      var up := ManualUpSpeed(c, s.motion.homed);
      ManualFollows(s, e.at, up);
      ManualFollows(s, e.at, ToInt16(-up));
      ManualFollows(s, e.at, 0);
    case VelocityCmd(rpm) => ManualFollows(s, e.at, rpm);
    case PositionCmd(counts) => MoveFollows(s, e.at, counts);
    case IncPositionCmd(counts) => MoveFollows(s, e.at, counts);
    case Home(start) => HomeFollows(c, s, e.at, start);
    case Reset(go) => ResetFollows(c, s, e.at, go);
  }

  /* ---- the ticks that judge the axis ---- */

  /** The state from which a tick decides on the release. */
  function AtRelease(c: Config, s: State, e: Timed): State
    requires e.ev.Poll?
  {
    var u := AtMotion(c, s, e);
    UpdateMotion(c, u, e.at, Fresh(c, u.link, e.at), u.link.position, u.link.di)
  }

  /** A manual velocity command is in force and automatic release is on. */
  predicate Commanded(c: Config, v: State) {
    c.autoRelease && v.motion.mode == Manual && v.watch.cmd != 0
  }

  /** It is a command to go down, and the lower limit is seen. */
  ghost predicate DownAtBottom(c: Config, v: State) {
    v.watch.cmd < 0 && forall j: nat :: !Bits.Both(v.link.di, c.descendMask % 256, j)
  }

  /** This tick compares the position with the reference. */
  ghost predicate Judges(c: Config, v: State, now: int) {
    Commanded(c, v) && Fresh(c, v.link, now) && !DownAtBottom(c, v) && now - v.watch.since >= c.releaseGrace
  }

  /** What the ticks that judged saw since the velocity in force was first commanded. */
  ghost function Judged(c: Config, s: State, h: seq<Seen>, e: Timed): seq<Seen> {
    if e.ev.Poll? then
      var v := AtRelease(c, s, e);
      var since := if CountChanges(v.sent) > CountChanges(s.sent) then [] else h;
      if Judges(c, v, e.at) then since + [Seen(e.at, true, v.link.position)] else since
    else if CountChanges(Step(c, s, e).sent) > CountChanges(s.sent) then [] else h
  }

  ghost function JudgedOver(c: Config, s: State, h: seq<Seen>, evs: seq<Timed>): seq<Seen>
    decreases |evs|
  {
    if evs == [] then h else JudgedOver(c, Step(c, s, evs[0]), Judged(c, s, h, evs[0]), evs[1..])
  }

  /** The reference is what one of those ticks saw, and all later ones saw the same
      position within the threshold. */
  ghost predicate Referenced(c: Config, w: Watch, h: seq<Seen>) {
    w.refValid ==> exists j :: ReferenceAt(c, w, h, j)
  }

  ghost predicate ReferenceAt(c: Config, w: Watch, h: seq<Seen>, j: int) {
    StillSince(c, h, j) && h[j].at == w.refTime && h[j].pos == w.ref
  }

  ghost predicate Kept(c: Config, s: State, h: seq<Seen>) { Tuned(s) && Referenced(c, s.watch, h) }

  lemma ReferenceFollows(c: Config, s: State, t: State, h: seq<Seen>)
    requires Follows(s, t) && Referenced(c, s.watch, h)
    ensures Referenced(c, t.watch, if CountChanges(t.sent) > CountChanges(s.sent) then [] else h)
  {
    hide CountChanges;
  }

  /** What the release makes of the watch. */
  lemma ReleaseExactly(c: Config, v: State, now: int)
    ensures var live := Fresh(c, v.link, now);
            var t := ReleaseIfBlocked(c, v, now, live, v.link.position, v.link.di);
            var w, p := v.watch, v.link.position;
            if Commanded(c, v) && live && DownAtBottom(c, v) then t == SendVelocity(v, now, 0)
            else if !Judges(c, v, now) then t == v
            else if !w.refValid || Abs(p - w.ref) > c.stallCounts then
              t == v.(watch := w.(ref := p, refTime := now, refValid := true))
            else if now - w.refTime >= c.releaseStop then t == SendVelocity(v, now, 0)
            else t == v
  {
    hide SendVelocity, Abs, Fresh;
    LimitMeansInputsOff(c, v.link.di, Fresh(c, v.link, now));
  }

  lemma ReleaseKeepsReference(c: Config, v: State, now: int, h: seq<Seen>)
    requires Tuned(v) && Referenced(c, v.watch, h)
    ensures var t := ReleaseIfBlocked(c, v, now, Fresh(c, v.link, now), v.link.position, v.link.di);
            var seen := if Judges(c, v, now) then h + [Seen(now, true, v.link.position)] else h;
            Tuned(t) && Referenced(c, t.watch, seen)
  {
    hide ReleaseIfBlocked, Judges, DownAtBottom, LastVelocity, SpeedSince, CountChanges, StillSince, Fresh, Abs;
    ReleaseExactly(c, v, now);
    var x := Seen(now, true, v.link.position);
    var t := ReleaseIfBlocked(c, v, now, Fresh(c, v.link, now), v.link.position, v.link.di);
    SendFollows(v, now, 0);
    SendVelocityEffect(v, now, 0);
    NewWindow(c, h, x);
    if Judges(c, v, now) && t.watch.refValid {
      if !v.watch.refValid || Abs(v.link.position - v.watch.ref) > c.stallCounts {
        assert (h + [x])[|h|] == x;
        assert ReferenceAt(c, t.watch, h + [x], |h|);
      } else {
        var j :| ReferenceAt(c, v.watch, h, j);
        InWindow(c, h, j);
        JudgedCommanded(c, v, now);
        WindowGrows(c, h, x, j);
        assert (h + [x])[j] == h[j];
        assert ReferenceAt(c, v.watch, h + [x], j);
      }
    }
  }

  lemma JudgedCommanded(c: Config, v: State, now: int)
    requires Judges(c, v, now)
    ensures v.watch.cmd != 0
  {
  }

  lemma StepKept(c: Config, s: State, e: Timed, h: seq<Seen>)
    requires Kept(c, s, h)
    ensures Kept(c, Step(c, s, e), Judged(c, s, h, e))
  {
    hide Follows, Tuned, Referenced, Judges, CountChanges, PollAlarm, AutoHomes, UpdateMotion, ReleaseIfBlocked,
         Fresh, HomingVelocity, OnText, ManualVelocity, OnPosition, OnIncPosition, OnHome, OnReset;
    if e.ev.Poll? {
      var t, u, v := PollAlarm(c, s, e.at, e.ev.chunk), AtMotion(c, s, e), AtRelease(c, s, e);
      PollAlarmFollows(c, s, e.at, e.ev.chunk);
      FollowsTuned(s, t);
      Same(t, u);
      FollowsThrough(s, t, u);
      FollowsTuned(s, u);
      MotionFollows(c, u, e.at, Fresh(c, u.link, e.at), u.link.position, u.link.di);
      FollowsThrough(s, u, v);
      FollowsTuned(s, v);
      MotionLink(c, u, e.at, Fresh(c, u.link, e.at), u.link.position, u.link.di);
      ReferenceFollows(c, s, v, h);
      ReleaseKeepsReference(c, v, e.at, if CountChanges(v.sent) > CountChanges(s.sent) then [] else h);
    } else {
      CommandFollows(c, s, e);
      FollowsTuned(s, Step(c, s, e));
      ReferenceFollows(c, s, Step(c, s, e), h);
    }
  }

  lemma MotionLink(c: Config, s: State, now: int, live: bool, pos: int, di: byte)
    ensures UpdateMotion(c, s, now, live, pos, di).link == s.link
  {
    hide UpdateHoming, Abs;
    LiftAlarm.HomingFrame(c, s, now, live, pos, di);
  }

  lemma {:induction false} RunKept(c: Config, s: State, h: seq<Seen>, evs: seq<Timed>)
    requires Kept(c, s, h)
    ensures Kept(c, Exec(c, s, evs), JudgedOver(c, s, h, evs))
    decreases |evs|
  {
    hide Step, Kept, Judged;
    if evs != [] {
      StepKept(c, s, evs[0], h);
      RunKept(c, Step(c, s, evs[0]), Judged(c, s, h, evs[0]), evs[1..]);
    }
  }

  lemma InitKept(c: Config, from: int)
    ensures Kept(c, Init(c, from), [])
  {
    LogStep([], Sent(from, PositionVelocity(BasePositionSpeed(c) % 0x1_0000)));
    assert [] + [Sent(from, PositionVelocity(BasePositionSpeed(c) % 0x1_0000))]
        == [Sent(from, PositionVelocity(BasePositionSpeed(c) % 0x1_0000))];
  }

  /** Over any run, a tick releases a velocity command only with automatic release on, in
      manual mode and on fresh data, and either going down at the lower limit, or when the
      grace since the speed was first commanded is over and an earlier tick that judged it
      exists since which all of them saw the axis within the threshold, for the stop time. */
  lemma ReleaseIsSound(c: Config, from: int, evs: seq<Timed>, e: Timed)
    requires e.ev.Poll?
    requires var s := Exec(c, Init(c, from), evs); Step(c, s, e).sent != AtRelease(c, s, e).sent
    ensures var s := Exec(c, Init(c, from), evs);
            var v, t := AtRelease(c, s, e), Step(c, s, e);
            var h := Judged(c, s, JudgedOver(c, Init(c, from), [], evs), e);
            && t.sent == v.sent + [Sent(e.at, Velocity(0))]
            && c.autoRelease && v.motion.mode == Manual && Fresh(c, t.link, e.at) && LastVelocity(v.sent) != 0
            && (|| (LastVelocity(v.sent) < 0 && forall j: nat :: !Bits.Both(t.link.di, c.descendMask % 256, j))
                || (e.at - SpeedSince(v.sent) >= c.releaseGrace && h != [] && h[|h| - 1].at == e.at
                    && exists j :: StillSince(c, h, j) && j < |h| - 1 && e.at - h[j].at >= c.releaseStop))
  {
    hide Init, Exec, JudgedOver, CountChanges, StillSince, PollAlarm, AutoHomes, UpdateMotion, Fresh, HomingVelocity,
         ReleaseIfBlocked, LastVelocity, SpeedSince, Follows;
    var s := Exec(c, Init(c, from), evs);
    var h0 := JudgedOver(c, Init(c, from), [], evs);
    InitKept(c, from);
    RunKept(c, Init(c, from), [], evs);
    var v := AtRelease(c, s, e);
    ReleaseTick(c, s, e, h0);
  }

  lemma ReleaseTick(c: Config, s: State, e: Timed, h: seq<Seen>)
    requires e.ev.Poll? && Kept(c, s, h) && Step(c, s, e).sent != AtRelease(c, s, e).sent
    ensures var v, t, h' := AtRelease(c, s, e), Step(c, s, e), Judged(c, s, h, e);
            && t.link == v.link && Tuned(v) && Commanded(c, v) && Fresh(c, v.link, e.at)
            && t.sent == v.sent + [Sent(e.at, Velocity(0))]
            && (DownAtBottom(c, v)
                || (e.at - v.watch.since >= c.releaseGrace && h' != [] && h'[|h'| - 1].at == e.at
                    && exists j :: StillSince(c, h', j) && j < |h'| - 1 && e.at - h'[j].at >= c.releaseStop))
  {
    hide Follows, Tuned, Referenced, CountChanges, PollAlarm, AutoHomes, UpdateMotion, ReleaseIfBlocked, Fresh,
         HomingVelocity, StillSince, Abs, DownAtBottom, SendVelocity;
    var t, u, v := PollAlarm(c, s, e.at, e.ev.chunk), AtMotion(c, s, e), AtRelease(c, s, e);
    PollAlarmFollows(c, s, e.at, e.ev.chunk);
    FollowsTuned(s, t);
    Same(t, u);
    FollowsThrough(s, t, u);
    FollowsTuned(s, u);
    MotionFollows(c, u, e.at, Fresh(c, u.link, e.at), u.link.position, u.link.di);
    FollowsThrough(s, u, v);
    FollowsTuned(s, v);
    MotionLink(c, u, e.at, Fresh(c, u.link, e.at), u.link.position, u.link.di);
    ReferenceFollows(c, s, v, h);
    ReleaseExactly(c, v, e.at);
    SendVelocityEffect(v, e.at, 0);
    if !DownAtBottom(c, v) {
      var since := if CountChanges(v.sent) > CountChanges(s.sent) then [] else h;
      var x := Seen(e.at, true, v.link.position);
      ReferenceMeans(c, v.watch, since);
      var j :| ReferenceAt(c, v.watch, since, j);
      InWindow(c, since, j);
      WindowGrows(c, since, x, j);
      assert (since + [x])[j] == since[j];
    }
  }

  lemma ReferenceMeans(c: Config, w: Watch, h: seq<Seen>)
    requires Referenced(c, w, h) && w.refValid
    ensures exists j :: ReferenceAt(c, w, h, j)
  {
  }

  /** Going down at the lower limit it is released at once. */
  lemma BottomReleases(c: Config, s: State, e: Timed)
    requires e.ev.Poll?
    requires var v := AtRelease(c, s, e); Commanded(c, v) && Fresh(c, v.link, e.at) && DownAtBottom(c, v)
    ensures Step(c, s, e).sent == AtRelease(c, s, e).sent + [Sent(e.at, Velocity(0))]
  {
    hide PollAlarm, AutoHomes, UpdateMotion, ReleaseIfBlocked, Fresh, HomingVelocity, DownAtBottom;
    var u, v := AtMotion(c, s, e), AtRelease(c, s, e);
    MotionLink(c, u, e.at, Fresh(c, u.link, e.at), u.link.position, u.link.di);
    ReleaseExactly(c, v, e.at);
    SendVelocityEffect(v, e.at, 0);
  }
}
