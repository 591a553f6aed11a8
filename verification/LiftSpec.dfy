/** What every callback and poll tick of the lift driver does to its state, as
    functions.  The class in LiftDriver.dfy is proved to compute them; the
    lemmas about whole runs are in LiftInvariant.dfy and the files after it.

    Times are integers in one unit; each event reads the clock once. */
module LiftSpec {
  import opened Bytes
  import opened LiftFrames
  import Bits

  datatype Mode = Manual | Position | Homing

  /** The frames the driver sends, before encoding. */
  datatype Command =
    | Velocity(rpm: int)
    | AbsPosition(counts: int)
    | IncPosition(counts: int)
    | PositionVelocity(rpm: int)
    | OriginReset
    | AlarmReset
    | MonitorRequest

  datatype Sent = Sent(at: int, cmd: Command)

  datatype Config = Config(
    addresses: Addresses,
    upSpeed: int,
    timeout: int,
    positionControl: bool,
    posiCtrlVel: int,
    homeSpeed: int,
    stallCounts: int,
    stallTime: int,
    homeMin: int,
    homeTimeout: int,
    tolerance: int,
    autoHome: bool,
    scale: real,
    useLimitSwitch: bool,
    descendMask: int,
    autoRelease: bool,
    releaseGrace: int,
    releaseStop: int,
    autoReset: bool,
    resetInterval: int,
    maxAttempts: int,
    maxCycles: int)

  /** What the constructor's clamps establish; 0 attempts or cycles is unlimited. */
  ghost predicate ValidConfig(c: Config) {
    c.scale >= 1.0 && c.resetInterval > 0 && c.maxAttempts >= 0 && c.maxCycles >= 0
  }

  /** Receive buffer and the last values reported by the drive. */
  datatype Link = Link(
    rx: seq<byte>,
    gotData: bool,
    rpm: int,
    status: byte,
    position: int,
    di: byte,
    lastRx: int)

  /** What the driver is doing. */
  datatype Motion = Motion(mode: Mode, target: int, homed: bool)

  /** A homing attempt and its stall window. */
  datatype HomingRun = HomingRun(dirSpeed: int, start: int, stallSince: int, stallRef: int, tracking: bool)

  /** The velocity command in force and the reference of the release check. */
  datatype Watch = Watch(cmd: int, since: int, ref: int, refTime: int, refValid: bool)

  /** lastReset 0 means never. */
  datatype AlarmState = AlarmState(active: bool, attempts: int, exhausted: bool, lastReset: int)

  /** The move to resume once the alarm clears; Manual means none. */
  datatype Resume = Resume(mode: Mode, target: int, cycles: int)

  datatype State = State(
    link: Link,
    motion: Motion,
    homing: HomingRun,
    pendingHome: bool,
    watch: Watch,
    alarm: AlarmState,
    resume: Resume,
    sent: seq<Sent>)

  datatype Event =
    | TextCommand(text: string)
    | VelocityCmd(rpm: int)
    | PositionCmd(counts: int)
    | IncPositionCmd(counts: int)
    | Home(start: bool)
    | Reset(go: bool)
    | Poll(chunk: seq<byte>)

  datatype Timed = Timed(at: int, ev: Event)

  /* ---- small helpers ---- */

  function Abs(x: int): nat { if x < 0 then -x else x }

  function ToInt16(v: int): int { Signed(v, 0x1_0000) }

  /** std::lround: half away from zero. */
  function Round(x: real): int {
    if x >= 0.0 then (x + 0.5).Floor else -((0.5 - x).Floor)
  }

  function ManualUpSpeed(c: Config, homed: bool): int {
    var v := Round(c.upSpeed as real * (if homed then c.scale else 1.0));
    if v > 32767 then 32767 else if v < -32768 then -32768 else v
  }

  function BasePositionSpeed(c: Config): int {
    if !c.positionControl then 0
    else if c.posiCtrlVel > 0 then c.posiCtrlVel
    else Abs(c.upSpeed)
  }

  function ScaledPositionSpeed(c: Config): int {
    var scaled := Round(BasePositionSpeed(c) as real * c.scale);
    if scaled > 32767 then 32767 else scaled
  }

  predicate AtLowerLimit(c: Config, di: byte, live: bool) {
    live && Bits.And(di, c.descendMask % 256) == 0
  }

  /** The lower limit is seen exactly in live data with every masked input off. */
  lemma LimitMeansInputsOff(c: Config, di: byte, live: bool)
    ensures AtLowerLimit(c, di, live)
            <==> live && forall j: nat :: !Bits.Both(di, c.descendMask % 256, j)
  {
    Bits.AndIsZero(di, c.descendMask % 256);
  }

  predicate Alarm(status: byte) { status % 2 == 1 }

  predicate Fresh(c: Config, l: Link, now: int) {
    l.gotData && now - l.lastRx < c.timeout
  }

  /* ---- the receiving side ---- */

  function HandleFrame(l: Link, now: int, f: Frame): Link {
    if f.pid == PID_MONITOR && |f.data| >= 12 then
      l.(rpm := Le16(f.data), status := f.data[6], position := Le32(f.data[7..]),
         di := f.data[11], gotData := true, lastRx := now)
    else if f.pid == PID_POSI_DATA && |f.data| >= 4 then
      l.(position := Le32(f.data), gotData := true, lastRx := now)
    else l
  }

  function HandleFrames(l: Link, now: int, fs: seq<Frame>): Link
    decreases |fs|
  {
    if fs == [] then l else HandleFrames(HandleFrame(l, now, fs[0]), now, fs[1..])
  }

  function Receive(a: Addresses, l: Link, now: int, chunk: seq<byte>): Link {
    var scanned := Scan(a, l.rx + chunk);
    HandleFrames(l.(rx := scanned.rest), now, scanned.frames)
  }

  /* ---- the sending side ---- */

  function Emit(s: State, now: int, cmd: Command): State {
    s.(sent := s.sent + [Sent(now, cmd)])
  }

  function WithMode(s: State, mode: Mode): State {
    s.(motion := s.motion.(mode := mode))
  }

  function SendVelocity(s: State, now: int, rpm: int): State {
    var w := if rpm != s.watch.cmd then s.watch.(cmd := rpm, since := now, refValid := false) else s.watch;
    s.(watch := w, sent := s.sent + [Sent(now, Velocity(rpm))])
  }

  function CancelResume(s: State): State {
    s.(resume := s.resume.(mode := Manual, cycles := 0))
  }

  function ClearCycles(s: State): State {
    s.(resume := s.resume.(cycles := 0))
  }

  /* ---- alarm handling ---- */

  function RequestAlarmReset(c: Config, s: State, now: int, manual: bool): State {
    if !manual && c.maxAttempts > 0 && s.alarm.attempts >= c.maxAttempts then
      s.(alarm := s.alarm.(exhausted := true))
    else
      var t := Emit(SendVelocity(s, now, 0), now, AlarmReset);
      t.(alarm := s.alarm.(lastReset := now, attempts := s.alarm.attempts + 1))
  }

  function ResumeAfterAlarm(c: Config, s: State, now: int, pos: int): State {
    var r := s.resume;
    if r.mode == Manual then s
    else if c.maxCycles > 0 && r.cycles >= c.maxCycles then s.(resume := r.(mode := Manual))
    else
      var t := s.(resume := r.(mode := Manual, cycles := r.cycles + 1));
      if r.mode == Homing then
        WithMode(t, Homing).(homing := s.homing.(start := now, tracking := false))
      else
        var u := t.(motion := s.motion.(mode := Position, target := r.target));
        if s.motion.homed then Emit(u, now, AbsPosition(r.target))
        else Emit(u, now, IncPosition(r.target - pos))
  }

  function RaiseAlarm(s: State, now: int): State {
    var t := WithMode(SendVelocity(s.(alarm := AlarmState(true, 0, false, 0)), now, 0), Manual);
    if s.motion.mode == Position
    then t.(resume := s.resume.(mode := Position, target := s.motion.target))
    else t
  }

  function ClearAlarm(s: State): State {
    s.(alarm := s.alarm.(active := false, attempts := 0, exhausted := false))
  }

  function UpdateAlarm(c: Config, s: State, now: int, live: bool, status: byte, pos: int): State {
    if !live then s
    else if !Alarm(status) && s.alarm.active then ResumeAfterAlarm(c, ClearAlarm(s), now, pos)
    else
      var t := if Alarm(status) && !s.alarm.active then RaiseAlarm(s, now) else s;
      if t.alarm.active && c.autoReset && !t.alarm.exhausted
         && (t.alarm.lastReset == 0 || now - t.alarm.lastReset >= c.resetInterval)
      then RequestAlarmReset(c, t, now, false)
      else t
  }

  /* ---- motion ---- */

  function HomingSpeed(c: Config): int {
    if c.homeSpeed > 0 then c.homeSpeed else Abs(c.upSpeed)
  }

  /** A homing request is honoured: no alarm, and a speed is configured. */
  predicate HomingStarts(c: Config, s: State) {
    !s.alarm.active && HomingSpeed(c) != 0
  }

  function HomingVelocity(c: Config): int {
    ToInt16(if c.upSpeed >= 0 then -HomingSpeed(c) else HomingSpeed(c))
  }

  function StartHoming(c: Config, s: State, now: int): State {
    CancelResume(WithMode(s, Homing).(
      homing := s.homing.(dirSpeed := HomingVelocity(c), start := now, tracking := false),
      pendingHome := false))
  }

  function CompleteHoming(c: Config, s: State, now: int): State {
    var t := ClearCycles(Emit(SendVelocity(s, now, 0), now, OriginReset).(
               motion := s.motion.(homed := true, mode := Manual)));
    if BasePositionSpeed(c) > 0 && c.scale > 1.0
    then Emit(t, now, PositionVelocity(ScaledPositionSpeed(c)))
    else t
  }

  predicate HomingTimedOut(c: Config, h: HomingRun, now: int) {
    now - h.start > c.homeTimeout
  }

  predicate LimitReached(c: Config, di: byte, live: bool) {
    c.useLimitSwitch && AtLowerLimit(c, di, live)
  }

  /** The axis left the stall window (or there was none): a new one starts here. */
  predicate WindowRestarts(c: Config, h: HomingRun, pos: int) {
    !h.tracking || Abs(pos - h.stallRef) > c.stallCounts
  }

  predicate StallConfirmed(c: Config, h: HomingRun, now: int) {
    now - h.start >= c.homeMin && now - h.stallSince >= c.stallTime
  }

  function UpdateHoming(c: Config, s: State, now: int, live: bool, pos: int, di: byte): State {
    var h := s.homing;
    if HomingTimedOut(c, h, now) then ClearCycles(WithMode(SendVelocity(s, now, 0), Manual))
    else if LimitReached(c, di, live) then CompleteHoming(c, s, now)
    else
      var t := SendVelocity(s, now, h.dirSpeed);
      if !live then t.(homing := h.(tracking := false))
      else if WindowRestarts(c, h, pos) then
        t.(homing := h.(stallRef := pos, stallSince := now, tracking := true))
      else if StallConfirmed(c, h, now) then CompleteHoming(c, t, now)
      else t
  }

  function UpdateMotion(c: Config, s: State, now: int, live: bool, pos: int, di: byte): State {
    match s.motion.mode
    case Homing => UpdateHoming(c, s, now, live, pos, di)
    case Position =>
      if live && Abs(s.motion.target - pos) <= c.tolerance then ClearCycles(WithMode(s, Manual)) else s
    case Manual => s
  }

  function ReleaseIfBlocked(c: Config, s: State, now: int, live: bool, pos: int, di: byte): State {
    var w := s.watch;
    if !c.autoRelease || s.motion.mode != Manual || w.cmd == 0 || !live then s
    else if w.cmd < 0 && AtLowerLimit(c, di, live) then SendVelocity(s, now, 0)
    else if now - w.since < c.releaseGrace then s
    else if !w.refValid || Abs(pos - w.ref) > c.stallCounts then
      s.(watch := w.(ref := pos, refTime := now, refValid := true))
    else if now - w.refTime >= c.releaseStop then SendVelocity(s, now, 0)
    else s
  }

  /* ---- events ---- */

  /** Any manual velocity command cancels a move, a homing and a pending resume. */
  function ManualVelocity(s: State, now: int, rpm: int): State {
    SendVelocity(CancelResume(WithMode(s, Manual)), now, rpm)
  }

  predicate Recognised(text: string) { text == "up" || text == "down" || text == "stop" }

  /** The speed a recognised text asks for. */
  function TextSpeed(c: Config, homed: bool, text: string): int {
    if text == "up" then ManualUpSpeed(c, homed)
    else if text == "down" then ToInt16(-ManualUpSpeed(c, homed))
    else 0
  }

  function OnText(c: Config, s: State, now: int, text: string): State {
    var up := ManualUpSpeed(c, s.motion.homed);
    if text == "up" then ManualVelocity(s, now, up)
    else if text == "down" then ManualVelocity(s, now, ToInt16(-up))
    else if text == "stop" then ManualVelocity(s, now, 0)
    else s
  }

  function OnPosition(s: State, now: int, counts: int): State {
    if !s.motion.homed || s.alarm.active then s
    else Emit(CancelResume(s).(motion := s.motion.(target := counts, mode := Position)),
              now, AbsPosition(counts))
  }

  function OnIncPosition(s: State, now: int, counts: int): State {
    if s.alarm.active then s
    else Emit(CancelResume(s).(motion := s.motion.(target := s.link.position + counts, mode := Position)),
              now, IncPosition(counts))
  }

  function OnHome(c: Config, s: State, now: int, start: bool): State {
    if !start then
      var t := CancelResume(s.(pendingHome := false));
      if s.motion.mode == Homing then SendVelocity(WithMode(t, Manual), now, 0) else t
    else if HomingStarts(c, s) then StartHoming(c, s, now)
    else s
  }

  function OnReset(c: Config, s: State, now: int, go: bool): State {
    if !go then s
    else
      var t := ClearCycles(s.(alarm := s.alarm.(attempts := 0, exhausted := false)));
      if s.alarm.active then RequestAlarmReset(c, t, now, true)
      else Emit(t, now, AlarmReset).(alarm := t.alarm.(lastReset := now))
  }

  /** Of the events other than ticks, those the driver acts on; it ignores the rest. */
  predicate Acts(c: Config, s: State, ev: Event) {
    match ev
    case TextCommand(text) => Recognised(text)
    case VelocityCmd(_) => true
    case PositionCmd(_) => c.positionControl && s.motion.homed && !s.alarm.active
    case IncPositionCmd(_) => c.positionControl && !s.alarm.active
    case Home(start) => c.positionControl && (start ==> HomingStarts(c, s))
    case Reset(go) => go
    case Poll(_) => false
  }

  /** A tick up to and including the alarm handling. */
  function PollAlarm(c: Config, s: State, now: int, chunk: seq<byte>): State {
    var t := Emit(s, now, MonitorRequest).(link := Receive(c.addresses, s.link, now, chunk));
    UpdateAlarm(c, t, now, Fresh(c, t.link, now), t.link.status, t.link.position)
  }

  /** The automatic homing at start-up fires in this tick. */
  predicate AutoHomes(c: Config, s: State, now: int) {
    s.pendingHome && Fresh(c, s.link, now) && HomingStarts(c, s)
  }

  /** The rest of a tick, from the state the alarm handling leaves. */
  function PollMotion(c: Config, s: State, now: int): State {
    var l, live := s.link, Fresh(c, s.link, now);
    var t := if AutoHomes(c, s, now) then StartHoming(c, s, now) else s;
    ReleaseIfBlocked(c, UpdateMotion(c, t, now, live, l.position, l.di), now, live, l.position, l.di)
  }

  function OnPoll(c: Config, s: State, now: int, chunk: seq<byte>): State {
    PollMotion(c, PollAlarm(c, s, now, chunk), now)
  }

  /** Position and homing topics exist only with position control enabled. */
  function Step(c: Config, s: State, e: Timed): State {
    match e.ev
    case TextCommand(text) => OnText(c, s, e.at, text)
    case VelocityCmd(rpm) => ManualVelocity(s, e.at, rpm)
    case PositionCmd(counts) => if c.positionControl then OnPosition(s, e.at, counts) else s
    case IncPositionCmd(counts) => if c.positionControl then OnIncPosition(s, e.at, counts) else s
    case Home(start) => if c.positionControl then OnHome(c, s, e.at, start) else s
    case Reset(go) => OnReset(c, s, e.at, go)
    case Poll(chunk) => OnPoll(c, s, e.at, chunk)
  }

  function Init(c: Config, now: int): State {
    var s := State(Link([], false, 0, 0, 0, 0, 0), Motion(Manual, 0, false),
                   HomingRun(0, 0, 0, 0, false), c.positionControl && c.autoHome,
                   Watch(0, 0, 0, 0, false), AlarmState(false, 0, false, 0), Resume(Manual, 0, 0), []);
    if BasePositionSpeed(c) > 0
    then Emit(s, now, PositionVelocity(BasePositionSpeed(c) % 0x1_0000))
    else s
  }

  function Exec(c: Config, s: State, evs: seq<Timed>): State
    decreases |evs|
  {
    if evs == [] then s else Exec(c, Step(c, s, evs[0]), evs[1..])
  }

  /** Event times are positive and never go back. */
  ghost predicate Chronological(from: int, evs: seq<Timed>) {
    && 0 < from
    && (forall i :: 0 <= i < |evs| ==> from <= evs[i].at)
    && (forall i, j :: 0 <= i < j < |evs| ==> evs[i].at <= evs[j].at)
  }

  lemma {:induction false} ExecAppend(c: Config, s: State, xs: seq<Timed>, ys: seq<Timed>)
    ensures Exec(c, s, xs + ys) == Exec(c, Exec(c, s, xs), ys)
    decreases |xs|
  {
    if xs == [] {
      assert xs + ys == ys;
    } else {
      assert (xs + ys)[1..] == xs[1..] + ys;
      ExecAppend(c, Step(c, s, xs[0]), xs[1..], ys);
    }
  }

  /* ---- commands on the wire ---- */

  function FrameOf(cmd: Command): Frame {
    match cmd
    case Velocity(rpm) => Frame(PID_VEL_CMD, Bytes16(rpm))
    case AbsPosition(counts) => Frame(PID_POSI_CMD, Bytes32(counts))
    case IncPosition(counts) => Frame(PID_INC_POSI_CMD, Bytes32(counts))
    case PositionVelocity(rpm) => Frame(PID_TAR_POSI_VEL, Bytes16(rpm))
    case OriginReset => Frame(PID_POSI_RESET, [0])
    case AlarmReset => Frame(PID_ALARM_RESET, [0])
    case MonitorRequest => Frame(PID_REQ_PID_DATA, [PID_MONITOR])
  }

  function CommandFrame(a: Addresses, cmd: Command): seq<byte> {
    Request(a, FrameOf(cmd).pid, FrameOf(cmd).data)
  }

  function Frames(a: Addresses, cmds: seq<Command>): seq<seq<byte>> {
    if cmds == [] then [] else [CommandFrame(a, cmds[0])] + Frames(a, cmds[1..])
  }

  /** What a drive on the bus makes of a request frame. */
  function Decode(f: Frame): Command {
    if f.pid == PID_VEL_CMD && |f.data| >= 2 then Velocity(Le16(f.data))
    else if f.pid == PID_POSI_CMD && |f.data| >= 4 then AbsPosition(Le32(f.data))
    else if f.pid == PID_INC_POSI_CMD && |f.data| >= 4 then IncPosition(Le32(f.data))
    else if f.pid == PID_TAR_POSI_VEL && |f.data| >= 2 then PositionVelocity(Le16(f.data) % 0x1_0000)
    else if f.pid == PID_POSI_RESET then OriginReset
    else if f.pid == PID_ALARM_RESET then AlarmReset
    else MonitorRequest
  }

  /** The command's argument fits the field it is sent in. */
  ghost predicate FitsWire(cmd: Command) {
    match cmd
    case Velocity(rpm) => -0x8000 <= rpm < 0x8000
    case AbsPosition(counts) => -0x8000_0000 <= counts < 0x8000_0000
    case IncPosition(counts) => -0x8000_0000 <= counts < 0x8000_0000
    case PositionVelocity(rpm) => 0 <= rpm < 0x1_0000
    case _ => true
  }

  /** A drive that frames its input as this driver does (with the address roles
      exchanged) recovers exactly the commands sent, in order. */
  lemma {:induction false} CommandsArrive(a: Addresses, cmds: seq<Command>)
    requires forall cmd :: cmd in cmds ==> FitsWire(cmd)
    ensures var scanned := Scan(a.(host := a.rmid, rmid := a.host), Flatten(Frames(a, cmds)));
            && scanned.rest == []
            && |scanned.frames| == |cmds|
            && forall i :: 0 <= i < |cmds| ==> Decode(scanned.frames[i]) == cmds[i]
  {
    var b := a.(host := a.rmid, rmid := a.host);
    if cmds != [] {
      var cmd := cmds[0];
      assert cmd in cmds;
      CommandsArrive(a, cmds[1..]);
      var f := FrameOf(cmd);
      assert Flatten(Frames(a, cmds)) == Reply(b, a.ctrl, f) + Flatten(Frames(a, cmds[1..]));
      ReplyIsScanned(b, a.ctrl, f, Flatten(Frames(a, cmds[1..])));
      DecodeFrame(cmd);
    }
  }

  lemma DecodeFrame(cmd: Command)
    requires FitsWire(cmd)
    ensures Decode(FrameOf(cmd)) == cmd
  {
    match cmd
    case Velocity(rpm) => Le16RoundTrip(rpm);
    case AbsPosition(counts) => Le32RoundTrip(counts);
    case IncPosition(counts) => Le32RoundTrip(counts);
    case PositionVelocity(rpm) => Le16RoundTrip(rpm);
    case _ =>
  }

  /* ---- what a monitor reply says ---- */

  function MonitorData(rpm: int, current: seq<byte>, status: byte, position: int, di: byte): seq<byte> {
    Bytes16(rpm) + current + [status] + Bytes32(position) + [di]
  }

  lemma MonitorFrameRecovered(l: Link, now: int, rpm: int, current: seq<byte>, status: byte,
                              position: int, di: byte, more: seq<byte>)
    requires -0x8000 <= rpm < 0x8000 && -0x8000_0000 <= position < 0x8000_0000 && |current| == 4
    ensures HandleFrame(l, now, Frame(PID_MONITOR, MonitorData(rpm, current, status, position, di) + more))
         == Link(l.rx, true, rpm, status, position, di, now)
  {
    var d := MonitorData(rpm, current, status, position, di) + more;
    Le16RoundTrip(rpm);
    Le32RoundTrip(position);
    var b, p := Bytes16(rpm), Bytes32(position);
    assert d == b + current + [status] + p + [di] + more;
    assert d[0] == b[0] && d[1] == b[1] && d[6] == status && d[11] == di;
    assert d[7..][0] == p[0] && d[7..][1] == p[1] && d[7..][2] == p[2] && d[7..][3] == p[3];
    assert Le16(d) == Le16(b);
    assert Le32(d[7..]) == Le32(p);
  }

  /** A read that completes a monitor reply, with whatever of the stream was already in
      the buffer, leaves exactly the values it carries, fresh as of now, whatever
      replies and noise preceded it. */
  lemma MonitorValuesRecovered(c: Config, l: Link, now: int, ts: seq<Transmission>, last: Transmission,
                               rpm: int, current: seq<byte>, status: byte, position: int, di: byte,
                               more: seq<byte>, chunk: seq<byte>)
    requires -0x8000 <= rpm < 0x8000 && -0x8000_0000 <= position < 0x8000_0000
    requires |current| == 4 && |more| <= 243
    requires last.frame == Frame(PID_MONITOR, MonitorData(rpm, current, status, position, di) + more)
    requires forall t :: t in ts + [last] ==> WellFormed(c.addresses, t)
    requires l.rx + chunk == OnWire(c.addresses, ts + [last])
    ensures Receive(c.addresses, l, now, chunk) == Link([], true, rpm, status, position, di, now)
  {
    RoundTrip(c.addresses, ts + [last]);
    var empty, fs := l.(rx := []), FramesOf(ts);
    assert FramesOf(ts + [last]) == fs + [last.frame];
    HandleFramesLast(empty, now, fs, last.frame);
    RxUntouched(empty, now, fs);
    MonitorFrameRecovered(HandleFrames(empty, now, fs), now, rpm, current, status, position, di, more);
  }

  lemma {:induction false} HandleFramesLast(l: Link, now: int, fs: seq<Frame>, f: Frame)
    ensures HandleFrames(l, now, fs + [f]) == HandleFrame(HandleFrames(l, now, fs), now, f)
    decreases |fs|
  {
    if fs == [] {
      assert fs + [f] == [f];
    } else {
      assert (fs + [f])[1..] == fs[1..] + [f];
      HandleFramesLast(HandleFrame(l, now, fs[0]), now, fs[1..], f);
    }
  }

  lemma {:induction false} RxUntouched(l: Link, now: int, fs: seq<Frame>)
    ensures HandleFrames(l, now, fs).rx == l.rx
    decreases |fs|
  {
    if fs != [] {
      RxUntouched(HandleFrame(l, now, fs[0]), now, fs[1..]);
    }
  }
}
