/** The RS485 frame codec of the lift drive and the incremental frame scanner.

    A request is  RMID TMID ID PID NUM DATA.. CHK  and a reply swaps the two
    address bytes; CHK makes the byte sum of the whole frame zero modulo 256.
 */
module LiftFrames {
  import opened Bytes

  /** The three one-byte addresses every frame carries. */
  datatype Addresses = Addresses(rmid: byte, host: byte, ctrl: byte)

  /** What the scanner hands on: the parameter id and its data. */
  datatype Frame = Frame(pid: byte, data: seq<byte>)

  const PID_REQ_PID_DATA: byte := 4
  const PID_ALARM_RESET: byte := 12
  const PID_POSI_RESET: byte := 13
  const PID_VEL_CMD: byte := 130
  const PID_TAR_POSI_VEL: byte := 176
  const PID_MONITOR: byte := 196
  const PID_POSI_DATA: byte := 197
  const PID_POSI_CMD: byte := 243
  const PID_INC_POSI_CMD: byte := 244

  /* ---- byte sums ---- */

  function Sum(s: seq<byte>): nat {
    if s == [] then 0 else s[0] as int + Sum(s[1..])
  }

  lemma {:induction false} SumAppend(a: seq<byte>, b: seq<byte>)
    ensures Sum(a + b) == Sum(a) + Sum(b)
  {
    if a == [] {
      assert a + b == b;
    } else {
      SumAppend(a[1..], b);
      assert (a + b)[1..] == a[1..] + b;
    }
  }

  lemma SumPrefix(s: seq<byte>, k: nat)
    requires k < |s|
    ensures Sum(s[..k + 1]) == Sum(s[..k]) + s[k]
  {
    SumAppend(s[..k], [s[k]]);
    assert s[..k + 1] == s[..k] + [s[k]];
  }

  /** The checksum byte that completes a frame. */
  function Checksum(s: seq<byte>): byte {
    (0 - Sum(s) as int) % 256
  }

  /* ---- encoding ---- */

  /** The bytes of one frame; NUM is the data size truncated to a byte. */
  function Encode(to: byte, from: byte, ctrl: byte, pid: byte, data: seq<byte>): seq<byte> {
    var body := [to, from, ctrl, pid, |data| % 256] + data;
    body + [Checksum(body)]
  }

  function Request(a: Addresses, pid: byte, data: seq<byte>): seq<byte> {
    Encode(a.rmid, a.host, a.ctrl, pid, data)
  }

  /** A reply: the layout of a request with the two address bytes swapped.  The
      scanner does not look at the controller id, so any may stand there. */
  function Reply(a: Addresses, ctrl: byte, f: Frame): seq<byte> {
    Encode(a.host, a.rmid, ctrl, f.pid, f.data)
  }

  lemma EncodeSumsToZero(to: byte, from: byte, ctrl: byte, pid: byte, data: seq<byte>)
    ensures Sum(Encode(to, from, ctrl, pid, data)) % 256 == 0
  {
    var body := [to, from, ctrl, pid, |data| % 256] + data;
    SumAppend(body, [Checksum(body)]);
    assert Sum([Checksum(body)]) == Checksum(body) + Sum([]);
  }

  /** A single altered byte always breaks the zero-sum test. */
  lemma AlteredByteBreaksSum(s: seq<byte>, k: nat, v: byte)
    requires k < |s| && v != s[k] && Sum(s) % 256 == 0
    ensures Sum(s[k := v]) % 256 != 0
  {
    ReplacedSum(s, k, v);
  }

  /* ---- scanning ---- */

  datatype Scanned = Scanned(frames: seq<Frame>, rest: seq<byte>)

  /** A complete candidate frame stands at the front of buf. */
  predicate Candidate(a: Addresses, buf: seq<byte>) {
    |buf| >= 6 && buf[0] == a.host && buf[1] == a.rmid
  }

  function FrameLength(buf: seq<byte>): nat
    requires |buf| >= 6
  {
    6 + buf[4] as int
  }

  /** One scan of a whole buffer: the frames found, in order, and what is left
      for the next read. */
  function Scan(a: Addresses, buf: seq<byte>): Scanned
    decreases |buf|
  {
    if |buf| < 6 then Scanned([], buf)
    else if !Candidate(a, buf) then Scan(a, buf[1..])
    else
      var flen := FrameLength(buf);
      if |buf| < flen then Scanned([], buf)
      else if Sum(buf[..flen]) % 256 == 0 then
        var tail := Scan(a, buf[flen..]);
        Scanned([Frame(buf[3], buf[5..flen - 1])] + tail.frames, tail.rest)
      else Scan(a, buf[1..])
  }

  /** How the scan from index i of a buffer goes on, as the scanning loop sees it. */
  lemma ScanFrom(a: Addresses, buf: seq<byte>, i: nat)
    requires i + 6 <= |buf|
    ensures buf[i] != a.host || buf[i + 1] != a.rmid ==> Scan(a, buf[i..]) == Scan(a, buf[i + 1..])
    ensures var end := i + 6 + buf[i + 4] as int;
            buf[i] == a.host && buf[i + 1] == a.rmid ==>
              if |buf| < end then Scan(a, buf[i..]) == Scanned([], buf[i..])
              else if Sum(buf[i..end]) % 256 == 0 then
                var tail := Scan(a, buf[end..]);
                Scan(a, buf[i..]) == Scanned([Frame(buf[i + 3], buf[i + 5..end - 1])] + tail.frames, tail.rest)
              else Scan(a, buf[i..]) == Scan(a, buf[i + 1..])
  {
    hide Sum;
    var here, end := buf[i..], i + 6 + buf[i + 4] as int;
    assert here[1..] == buf[i + 1..];
    if |buf| >= end {
      assert here[..end - i] == buf[i..end] && here[end - i..] == buf[end..];
      assert here[5..end - i - 1] == buf[i + 5..end - 1];
    }
  }

  /** What stays in the buffer never exceeds 260 bytes, so the overflow guard
      after the scan (more than 512 bytes) cannot discard anything. */
  lemma {:induction false} LeftoverIsShort(a: Addresses, buf: seq<byte>)
    ensures |Scan(a, buf).rest| <= 260
    ensures |Scan(a, buf).rest| <= |buf|
      && Scan(a, buf).rest == buf[|buf| - |Scan(a, buf).rest|..]
    decreases |buf|
  {
    if |buf| < 6 {
    } else if !Candidate(a, buf) {
      LeftoverIsShort(a, buf[1..]);
    } else {
      var flen := FrameLength(buf);
      if |buf| >= flen {
        if Sum(buf[..flen]) % 256 == 0 {
          LeftoverIsShort(a, buf[flen..]);
        } else {
          LeftoverIsShort(a, buf[1..]);
        }
      }
    }
  }

  /** Scanning a + b at once is scanning a and then its leftover followed by b. */
  lemma {:induction false} ScanSplits(a: Addresses, x: seq<byte>, y: seq<byte>)
    ensures var first := Scan(a, x);
            var second := Scan(a, first.rest + y);
            Scan(a, x + y) == Scanned(first.frames + second.frames, second.rest)
    decreases |x|
  {
    if |x| < 6 {
    } else if !Candidate(a, x) {
      assert (x + y)[1..] == x[1..] + y;
      ScanSplits(a, x[1..], y);
    } else {
      var flen := FrameLength(x);
      if |x| >= flen {
        assert (x + y)[..flen] == x[..flen];
        if Sum(x[..flen]) % 256 == 0 {
          assert (x + y)[flen..] == x[flen..] + y;
          assert (x + y)[5..flen - 1] == x[5..flen - 1];
          ScanSplits(a, x[flen..], y);
        } else {
          assert (x + y)[1..] == x[1..] + y;
          ScanSplits(a, x[1..], y);
        }
      }
    }
  }

  /** The buffer after a sequence of reads, with every frame handed on so far. */
  function Feed(a: Addresses, rest: seq<byte>, chunks: seq<seq<byte>>): Scanned
    decreases |chunks|
  {
    if chunks == [] then Scanned([], rest)
    else
      var now := Scan(a, rest + chunks[0]);
      var later := Feed(a, now.rest, chunks[1..]);
      Scanned(now.frames + later.frames, later.rest)
  }

  function Flatten(chunks: seq<seq<byte>>): seq<byte> {
    if chunks == [] then [] else chunks[0] + Flatten(chunks[1..])
  }

  lemma {:induction false} ScanRestIsStable(a: Addresses, buf: seq<byte>)
    ensures Scan(a, Scan(a, buf).rest) == Scanned([], Scan(a, buf).rest)
    decreases |buf|
  {
    ScanSplits(a, buf, []);
    assert buf + [] == buf;
    assert Scan(a, buf).rest + [] == Scan(a, buf).rest;
    var r := Scan(a, Scan(a, buf).rest);
    assert Scan(a, buf).frames == Scan(a, buf).frames + r.frames;
    assert |r.frames| == 0;
  }

  /** However a byte stream is cut into reads, the frames handed on and the
      bytes left over are those of one scan of the whole stream. */
  lemma {:induction false} ChunkIndependence(a: Addresses, rest: seq<byte>, chunks: seq<seq<byte>>)
    requires Scan(a, rest) == Scanned([], rest)
    ensures Feed(a, rest, chunks) == Scan(a, rest + Flatten(chunks))
    decreases |chunks|
  {
    if chunks == [] {
      assert rest + [] == rest;
    } else {
      var now := Scan(a, rest + chunks[0]);
      ScanRestIsStable(a, rest + chunks[0]);
      ChunkIndependence(a, now.rest, chunks[1..]);
      ScanSplits(a, rest + chunks[0], Flatten(chunks[1..]));
      assert rest + chunks[0] + Flatten(chunks[1..]) == rest + Flatten(chunks);
    }
  }

  /* ---- round trip ---- */

  /** A reply on the wire: noise, then a frame from some controller. */
  datatype Transmission = Transmission(noise: seq<byte>, ctrl: byte, frame: Frame)

  ghost predicate WellFormed(a: Addresses, t: Transmission) {
    |t.frame.data| <= 255 && a.host !in t.noise
  }

  function OnWire(a: Addresses, ts: seq<Transmission>): seq<byte> {
    if ts == [] then []
    else ts[0].noise + Reply(a, ts[0].ctrl, ts[0].frame) + OnWire(a, ts[1..])
  }

  function FramesOf(ts: seq<Transmission>): seq<Frame> {
    seq(|ts|, i requires 0 <= i < |ts| => ts[i].frame)
  }

  lemma {:induction false} NoiseIsSkipped(a: Addresses, noise: seq<byte>, x: seq<byte>)
    requires a.host !in noise && |x| >= 6
    ensures Scan(a, noise + x) == Scan(a, x)
  {
    if noise == [] {
      assert noise + x == x;
    } else {
      assert (noise + x)[0] == noise[0];
      assert (noise + x)[1..] == noise[1..] + x;
      NoiseIsSkipped(a, noise[1..], x);
    }
  }

  lemma ReplyIsScanned(a: Addresses, ctrl: byte, f: Frame, y: seq<byte>)
    requires |f.data| <= 255
    ensures Scan(a, Reply(a, ctrl, f) + y)
         == Scanned([f] + Scan(a, y).frames, Scan(a, y).rest)
  {
    var r := Reply(a, ctrl, f);
    var buf := r + y;
    assert FrameLength(buf) == |r|;
    assert buf[..|r|] == r && buf[|r|..] == y;
    assert buf[5..|r| - 1] == f.data;
    EncodeSumsToZero(a.host, a.rmid, ctrl, f.pid, f.data);
  }

  /** Any sequence of well-formed replies, each after noise without the host
      byte, is delivered exactly, in order, with nothing left over. */
  lemma {:induction false} RoundTrip(a: Addresses, ts: seq<Transmission>)
    requires forall t :: t in ts ==> WellFormed(a, t)
    ensures Scan(a, OnWire(a, ts)) == Scanned(FramesOf(ts), [])
  {
    if ts != [] {
      var t, later := ts[0], OnWire(a, ts[1..]);
      RoundTrip(a, ts[1..]);
      assert t in ts;
      ReplyIsScanned(a, t.ctrl, t.frame, later);
      NoiseIsSkipped(a, t.noise, Reply(a, t.ctrl, t.frame) + later);
      assert t.noise + (Reply(a, t.ctrl, t.frame) + later) == OnWire(a, ts);
      assert FramesOf(ts) == [t.frame] + FramesOf(ts[1..]);
    }
  }

  /** ... and also when the stream arrives in arbitrary reads. */
  lemma RoundTripInReads(a: Addresses, ts: seq<Transmission>, chunks: seq<seq<byte>>)
    requires forall t :: t in ts ==> WellFormed(a, t)
    requires Flatten(chunks) == OnWire(a, ts)
    ensures Feed(a, [], chunks) == Scanned(FramesOf(ts), [])
  {
    ChunkIndependence(a, [], chunks);
    assert [] + Flatten(chunks) == OnWire(a, ts);
    RoundTrip(a, ts);
  }

  /** A reply with one byte altered is not taken for a frame: the scanner moves
      on by a single byte.  (Altering NUM moves the frame end: the scanner then judges
      a different candidate, see AlteredLengthExactly.) */
  lemma AlteredReplyIsRejected(a: Addresses, ctrl: byte, f: Frame, k: nat, v: byte, y: seq<byte>)
    requires |f.data| <= 255
    requires k < |Reply(a, ctrl, f)| && k != 4 && v != Reply(a, ctrl, f)[k]
    ensures var damaged := Reply(a, ctrl, f)[k := v] + y;
            Scan(a, damaged) == Scan(a, damaged[1..])
  {
    var r := Reply(a, ctrl, f);
    var damaged := r[k := v] + y;
    EncodeSumsToZero(a.host, a.rmid, ctrl, f.pid, f.data);
    AlteredByteBreaksSum(r, k, v);
    assert FrameLength(damaged) == |r|;
    assert damaged[..|r|] == r[k := v];
  }

  /** An altered NUM can pass: for every address and parameter there is a reply of one
      data byte that, with NUM made 0, is taken for a frame without data. */
  lemma AlteredLengthCanPass(a: Addresses, ctrl: byte, pid: byte)
    ensures var f := Frame(pid, [Checksum([a.host, a.rmid, ctrl, pid, 0])]);
            var scanned := Scan(a, Reply(a, ctrl, f)[4 := 0]);
            scanned.frames != [] && scanned.frames[0] == Frame(pid, [])
  {
    var f := Frame(pid, [Checksum([a.host, a.rmid, ctrl, pid, 0])]);
    var empty := Reply(a, ctrl, Frame(pid, []));
    var damaged := Reply(a, ctrl, f)[4 := 0];
    assert [a.host, a.rmid, ctrl, pid, 0] + [] == [a.host, a.rmid, ctrl, pid, 0];
    assert damaged == empty + damaged[6..];
    ReplyIsScanned(a, ctrl, Frame(pid, []), damaged[6..]);
  }

  /** The candidate at the front is complete and sums to zero. */
  predicate FrontTaken(a: Addresses, buf: seq<byte>) {
    Candidate(a, buf) && |buf| >= FrameLength(buf) && Sum(buf[..FrameLength(buf)]) % 256 == 0
  }

  /** A reply whose NUM is altered from n to v, with the bytes that follow it, passes:
      if shortened, what is cut off makes up for the change; if lengthened, what
      follows does and is there. */
  predicate AlteredLengthPasses(r: seq<byte>, n: nat, v: byte, y: seq<byte>)
    requires |r| == 6 + n
  {
    if v as int < n then (v as int - n - Sum(r[6 + v as int..])) % 256 == 0
    else |y| >= v as int - n && (v as int - n + Sum(y[..v as int - n])) % 256 == 0
  }

  /** Cut short, the frame keeps its sum less the change and what is cut off. */
  lemma ShortenedSum(r: seq<byte>, v: byte, y: seq<byte>)
    requires 6 + v as int < |r|
    ensures Sum((r[4 := v] + y)[..6 + v as int]) == Sum(r) - r[4] + v - Sum(r[6 + v as int..])
  {
    hide Sum;
    var w := 6 + v as int;
    assert (r[4 := v] + y)[..w] == r[..w][4 := v];
    ReplacedSum(r[..w], 4, v);
    assert r == r[..w] + r[w..];
    SumAppend(r[..w], r[w..]);
  }

  /** Lengthened, it takes in the bytes that follow. */
  lemma LengthenedSum(r: seq<byte>, v: byte, y: seq<byte>)
    requires 5 <= |r| <= 6 + v as int <= |r| + |y|
    ensures Sum((r[4 := v] + y)[..6 + v as int]) == Sum(r) - r[4] + v + Sum(y[..6 + v as int - |r|])
  {
    hide Sum;
    var w := 6 + v as int;
    assert (r[4 := v] + y)[..w] == r[4 := v] + y[..w - |r|];
    ReplacedSum(r, 4, v);
    SumAppend(r[4 := v], y[..w - |r|]);
  }

  /** The bytes that the altered NUM claims are there and sum to zero exactly then. */
  lemma AlteredLengthSums(r: seq<byte>, n: nat, v: byte, y: seq<byte>)
    requires |r| == 6 + n && r[4] as int == n != v as int && Sum(r) % 256 == 0
    ensures var damaged, end := r[4 := v] + y, 6 + v as int;
            |damaged| >= end && Sum(damaged[..end]) % 256 == 0 <==> AlteredLengthPasses(r, n, v, y)
  {
    hide Sum;
    if v as int < n {
      ShortenedSum(r, v, y);
    } else if |y| >= v as int - n {
      LengthenedSum(r, v, y);
    }
  }

  /** How the scan goes on from a candidate at the front. */
  lemma ScanFront(a: Addresses, buf: seq<byte>)
    requires Candidate(a, buf)
    ensures var end := FrameLength(buf);
            if FrontTaken(a, buf) then
              var tail := Scan(a, buf[end..]);
              Scan(a, buf) == Scanned([Frame(buf[3], buf[5..end - 1])] + tail.frames, tail.rest)
            else if |buf| < end then Scan(a, buf) == Scanned([], buf)
            else Scan(a, buf) == Scan(a, buf[1..])
  {
    hide Sum;
  }

  /** Exactly then the altered reply is taken for a frame of v data bytes; else the
      scanner waits for more bytes if the candidate is not complete, and moves on by
      one byte if it is. */
  lemma AlteredLengthExactly(a: Addresses, ctrl: byte, f: Frame, v: byte, y: seq<byte>)
    requires |f.data| <= 255 && v as int != |f.data|
    ensures var r := Reply(a, ctrl, f);
            var damaged := r[4 := v] + y;
            && (FrontTaken(a, damaged) <==> AlteredLengthPasses(r, |f.data|, v, y))
            && if FrontTaken(a, damaged) then
                 var tail := Scan(a, damaged[6 + v as int..]);
                 Scan(a, damaged) == Scanned([Frame(f.pid, damaged[5..5 + v as int])] + tail.frames, tail.rest)
               else if |damaged| < 6 + v as int then Scan(a, damaged) == Scanned([], damaged)
               else Scan(a, damaged) == Scan(a, damaged[1..])
  {
    var r := Reply(a, ctrl, f);
    var damaged := r[4 := v] + y;
    assert Candidate(a, damaged) && FrameLength(damaged) == 6 + v as int && damaged[3] == f.pid;
    EncodeSumsToZero(a.host, a.rmid, ctrl, f.pid, f.data);
    assert |r| == 6 + |f.data| && r[4] as int == |f.data|;
    hide Sum, Scan, Reply;
    AlteredLengthSums(r, |f.data|, v, y);
    ScanFront(a, damaged);
  }

  lemma ReplacedSum(s: seq<byte>, k: nat, v: byte)
    requires k < |s|
    ensures Sum(s[k := v]) == Sum(s) - s[k] + v
  {
    var pre, post := s[..k], s[k + 1..];
    assert s == pre + ([s[k]] + post) && s[k := v] == pre + ([v] + post);
    SumAppend(pre, [s[k]] + post);
    SumAppend(pre, [v] + post);
    assert ([s[k]] + post)[1..] == post && ([v] + post)[1..] == post;
  }
}
