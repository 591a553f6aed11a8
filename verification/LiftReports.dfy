/** What the driver knows of the axis: the values of the last report received, and for how
    long they count as fresh; and what it tells the drive about speeds. */
module LiftReports {
  import opened Bytes
  import opened LiftFrames
  import opened LiftSpec
  import opened LiftInvariant
  import opened LiftAlarm
  import opened LiftHoming
  import opened LiftMotion

  /* ---- the last report counts ---- */

  predicate IsMonitor(f: Frame) { f.pid == PID_MONITOR && |f.data| >= 12 }

  predicate IsReport(f: Frame) { IsMonitor(f) || (f.pid == PID_POSI_DATA && |f.data| >= 4) }

  /** The position stands at byte 7 of a monitor reply and at the front of a position reply. */
  function PositionIn(f: Frame): int
    requires IsReport(f)
  {
    if IsMonitor(f) then Le32(f.data[7..]) else Le32(f.data)
  }

  predicate LastOf(fs: seq<Frame>, k: nat, p: Frame -> bool) {
    k < |fs| && p(fs[k]) && forall j :: k < j < |fs| ==> !p(fs[j])
  }

  lemma OneReport(l: Link, now: int, f: Frame)
    ensures var n := HandleFrame(l, now, f);
            && n.rx == l.rx && (!IsReport(f) ==> n == l)
            && (IsReport(f) ==> n.position == PositionIn(f) && n.gotData && n.lastRx == now)
            && (IsMonitor(f) ==> n.rpm == Le16(f.data) && n.status == f.data[6] && n.di == f.data[11])
            && (!IsMonitor(f) ==> n.rpm == l.rpm && n.status == l.status && n.di == l.di)
  {
  }

  /** After any frames the position is that of the last report among them; without one
      everything stays. */
  lemma {:induction false} LastReportCounts(l: Link, now: int, fs: seq<Frame>)
    ensures var n := HandleFrames(l, now, fs);
            && n.rx == l.rx
            && ((forall k :: 0 <= k < |fs| ==> !IsReport(fs[k])) ==> n == l)
            && (forall k: nat :: LastOf(fs, k, IsReport) ==>
                  n.position == PositionIn(fs[k]) && n.gotData && n.lastRx == now)
    decreases |fs|
  {
    hide HandleFrame, IsReport, IsMonitor, PositionIn;
    if fs != [] {
      var m, rest := HandleFrame(l, now, fs[0]), fs[1..];
      OneReport(l, now, fs[0]);
      LastReportCounts(m, now, rest);
      assert forall k :: 0 <= k < |rest| ==> rest[k] == fs[k + 1];
      forall k: nat | LastOf(fs, k, IsReport)
        ensures var n := HandleFrames(l, now, fs);
                n.position == PositionIn(fs[k]) && n.gotData && n.lastRx == now
      {
        assert forall j :: k < j < |fs| ==> fs[j] == rest[j - 1];
        if k > 0 {
          assert LastOf(rest, k - 1, IsReport);
        }
      }
    }
  }

  /** The other values are those of the last monitor reply, and stay without one. */
  lemma {:induction false} LastMonitorCounts(l: Link, now: int, fs: seq<Frame>)
    ensures var n := HandleFrames(l, now, fs);
            && ((forall k :: 0 <= k < |fs| ==> !IsMonitor(fs[k])) ==>
                  n.rpm == l.rpm && n.status == l.status && n.di == l.di)
            && (forall k: nat :: LastOf(fs, k, IsMonitor) ==>
                  n.rpm == Le16(fs[k].data) && n.status == fs[k].data[6] && n.di == fs[k].data[11])
    decreases |fs|
  {
    hide HandleFrame, IsReport, PositionIn, Le16;
    if fs != [] {
      var m, rest := HandleFrame(l, now, fs[0]), fs[1..];
      OneReport(l, now, fs[0]);
      LastMonitorCounts(m, now, rest);
      assert forall k :: 0 <= k < |rest| ==> rest[k] == fs[k + 1];
      forall k: nat | LastOf(fs, k, IsMonitor)
        ensures var n := HandleFrames(l, now, fs);
                n.rpm == Le16(fs[k].data) && n.status == fs[k].data[6] && n.di == fs[k].data[11]
      {
        assert forall j :: k < j < |fs| ==> fs[j] == rest[j - 1];
        if k > 0 {
          assert LastOf(rest, k - 1, IsMonitor);
        }
      }
    }
  }

  lemma PositionRead(position: int, more: seq<byte>)
    requires -0x8000_0000 <= position < 0x8000_0000
    ensures Le32(Bytes32(position) + more) == position
  {
    Le32RoundTrip(position);
    var b := Bytes32(position);
    var d := b + more;
    assert d[0] == b[0] && d[1] == b[1] && d[2] == b[2] && d[3] == b[3];
  }

  /** A position reply at the end of a stream leaves exactly its position, fresh as of now. */
  lemma PositionRecovered(c: Config, l: Link, now: int, ts: seq<Transmission>, last: Transmission,
                          position: int, more: seq<byte>, chunk: seq<byte>)
    requires -0x8000_0000 <= position < 0x8000_0000 && |more| <= 251
    requires last.frame == Frame(PID_POSI_DATA, Bytes32(position) + more)
    requires forall t :: t in ts + [last] ==> WellFormed(c.addresses, t)
    requires l.rx + chunk == OnWire(c.addresses, ts + [last])
    ensures var n := Receive(c.addresses, l, now, chunk);
            n.rx == [] && n.position == position && n.gotData && n.lastRx == now
  {
    var all := ts + [last];
    RoundTrip(c.addresses, all);
    var fs := LiftFrames.FramesOf(all);
    assert fs[|ts|] == last.frame && |fs| == |ts| + 1;
    assert IsReport(last.frame) && !IsMonitor(last.frame);
    PositionRead(position, more);
    hide OnWire, WellFormed, Bytes32, Le32, HandleFrames, Scan;
    assert PositionIn(last.frame) == position;
    LastReportCounts(l.(rx := []), now, fs);
    assert LastOf(fs, |ts|, IsReport);
  }

  /* ---- fresh means heard of recently ---- */

  /** This event is a tick that receives a report. */
  predicate Hears(c: Config, s: State, e: Timed) {
    e.ev.Poll? && var fs := Scan(c.addresses, s.link.rx + e.ev.chunk).frames;
                  exists k :: 0 <= k < |fs| && IsReport(fs[k])
  }

  predicate HearsAt(c: Config, s: State, evs: seq<Timed>, i: nat)
    requires i < |evs|
  {
    Hears(c, Exec(c, s, evs[..i]), evs[i])
  }

  /** The time of the last tick that heard a report; `since` if none did. */
  function HeardOver(c: Config, s: State, since: int, evs: seq<Timed>): int
    decreases |evs|
  {
    if evs == [] then since
    else HeardOver(c, Step(c, s, evs[0]), if Hears(c, s, evs[0]) then evs[0].at else since, evs[1..])
  }

  lemma {:induction false} LastReportExists(fs: seq<Frame>)
    ensures (exists k :: 0 <= k < |fs| && IsReport(fs[k])) <==> exists k: nat :: LastOf(fs, k, IsReport)
    decreases |fs|
  {
    if fs != [] {
      hide IsReport;
      var front, n := fs[..|fs| - 1], |fs| - 1;
      LastReportExists(front);
      if IsReport(fs[n]) {
        assert LastOf(fs, n, IsReport);
      } else if k: nat :| LastOf(front, k, IsReport) {
        assert LastOf(fs, k, IsReport);
      }
    }
  }

  /** One event: the time of the last report is kept or set to now. */
  lemma StepHears(c: Config, s: State, e: Timed)
    ensures var l, n := s.link, Step(c, s, e).link;
            if Hears(c, s, e) then n.gotData && n.lastRx == e.at
            else n.gotData == l.gotData && n.lastRx == l.lastRx
  {
    if e.ev.Poll? {
      hide PollAlarm, PollMotion, HandleFrames, Scan;
      var scanned := Scan(c.addresses, s.link.rx + e.ev.chunk);
      TickReceives(c, s, e);
      LastReportExists(scanned.frames);
      LastReportCounts(s.link.(rx := scanned.rest), e.at, scanned.frames);
    } else {
      hide ManualUpSpeed, ToInt16, HomingVelocity, HomingSpeed;
    }
  }

  lemma TickReceives(c: Config, s: State, e: Timed)
    requires e.ev.Poll?
    ensures Step(c, s, e).link == Receive(c.addresses, s.link, e.at, e.ev.chunk)
  {
    hide UpdateAlarm, PollMotion, Receive;
    var t0 := Emit(s, e.at, MonitorRequest).(link := Receive(c.addresses, s.link, e.at, e.ev.chunk));
    TickLinks(c, s, e);
    LinkKept(c, t0, e.at, Fresh(c, t0.link, e.at), t0.link.status, t0.link.position);
  }

  lemma {:induction false} RunHears(c: Config, s: State, since: int, evs: seq<Timed>)
    requires since == (if s.link.gotData then s.link.lastRx else 0) && forall i :: 0 <= i < |evs| ==> evs[i].at > 0
    requires s.link.gotData <==> since > 0
    ensures var l, t := Exec(c, s, evs).link, HeardOver(c, s, since, evs);
            (l.gotData <==> t > 0) && (t > 0 ==> l.lastRx == t)
    decreases |evs|
  {
    hide Step, Hears;
    if evs != [] {
      StepHears(c, s, evs[0]);
      RunHears(c, Step(c, s, evs[0]), if Hears(c, s, evs[0]) then evs[0].at else since, evs[1..]);
    }
  }

  /** That time is the last of those of the ticks that heard a report. */
  lemma {:induction false} HeardByTick(c: Config, s: State, since: int, evs: seq<Timed>)
    requires forall i, j :: 0 <= i < j < |evs| ==> evs[i].at <= evs[j].at
    ensures var t := HeardOver(c, s, since, evs);
            || (t == since && forall k: nat :: k < |evs| ==> !HearsAt(c, s, evs, k))
            || ((exists i: nat :: i < |evs| && HearsAt(c, s, evs, i) && t == evs[i].at)
                && forall k: nat :: k < |evs| && HearsAt(c, s, evs, k) ==> evs[k].at <= t)
    decreases |evs|
  {
    hide Step, Hears;
    if evs != [] {
      var e, t, rest := evs[0], Step(c, s, evs[0]), evs[1..];
      HeardByTick(c, t, if Hears(c, s, e) then e.at else since, rest);
      assert evs[..0] == [];
      assert HearsAt(c, s, evs, 0) == Hears(c, s, e);
      forall k: nat | 0 < k < |evs|
        ensures HearsAt(c, s, evs, k) == HearsAt(c, t, rest, k - 1)
      {
        assert evs[..k][0] == e && evs[..k][1..] == rest[..k - 1];
        assert Exec(c, s, evs[..k]) == Exec(c, t, rest[..k - 1]);
      }
      if i: nat :| i < |rest| && HearsAt(c, t, rest, i) && HeardOver(c, s, since, evs) == rest[i].at {
        assert HearsAt(c, s, evs, i + 1) && evs[i + 1] == rest[i];
      }
    }
  }

  /** In any run, the values count as fresh exactly while some tick within the timeout
      received a report. */
  lemma FreshExactly(c: Config, from: int, evs: seq<Timed>, now: int)
    requires Chronological(from, evs)
    ensures Fresh(c, Exec(c, Init(c, from), evs).link, now)
            <==> exists i: nat :: i < |evs| && HearsAt(c, Init(c, from), evs, i) && now - evs[i].at < c.timeout
  {
    hide Exec, HearsAt, HeardOver;
    RunHears(c, Init(c, from), 0, evs);
    HeardByTick(c, Init(c, from), 0, evs);
  }
}
