/** From a velocity command to the pulses of two drives and back to odometry, over
    idealised reals with pi an arbitrary positive number. */
module VelocityPath {
  import opened Bytes

  /** Pulses per second for one revolution per minute. */
  const PULSES_PER_RPM: real := 2730.66

  datatype Base = Base(
    pi: real,
    radius: real,
    separation: real,
    gear: real,
    maxLinear: real,
    maxAngular: real,
    timeout: real,
    swap: bool)

  datatype Twist = Twist(v: real, w: real)

  /** Two motor-shaft speeds in the order of the drive list, in rpm. */
  datatype Pair = Pair(first: real, second: real)

  function Abs(x: real): real { if x < 0.0 then -x else x }

  /** The parameters the formulas need; both directions refuse to work without. */
  predicate Usable(b: Base) { b.radius > 0.0 && b.gear != 0.0 }

  /* ---- the base controller's formulas ---- */

  function Limit(x: real, max: real): real {
    if max > 0.0 then
      var low := if max < x then max else x;
      if low < -max then -max else low
    else x
  }

  /** The command in force: zero once it is too old, and within the limits. */
  function InForce(b: Base, target: Twist, age: real): Twist {
    var t := if age > b.timeout then Twist(0.0, 0.0) else target;
    Twist(Limit(t.v, b.maxLinear), Limit(t.w, b.maxAngular))
  }

  function RpmToRad(b: Base): real { 2.0 * b.pi / 60.0 }

  function RadToRpm(b: Base): real
    requires b.pi > 0.0
  {
    60.0 / (2.0 * b.pi)
  }

  function ShaftRpm(b: Base, speed: real): real
    requires Usable(b) && b.pi > 0.0
  {
    speed / b.radius * RadToRpm(b) * b.gear
  }

  function WheelSpeed(b: Base, rpm: real): real
    requires Usable(b)
  {
    rpm / b.gear * RpmToRad(b) * b.radius
  }

  function LeftSpeed(b: Base, t: Twist): real { t.v - t.w * b.separation / 2.0 }

  function RightSpeed(b: Base, t: Twist): real { t.v + t.w * b.separation / 2.0 }

  function MotorCommand(b: Base, t: Twist): Pair
    requires b.pi > 0.0
  {
    if !Usable(b) then Pair(0.0, 0.0)
    else
      var left := ShaftRpm(b, LeftSpeed(b, t));
      var right := ShaftRpm(b, RightSpeed(b, t));
      if b.swap then Pair(right, left) else Pair(left, right)
  }

  function MeasuredSpeed(b: Base, m: Pair): real
    requires Usable(b)
  {
    (WheelSpeed(b, if b.swap then m.second else m.first) + WheelSpeed(b, if b.swap then m.first else m.second)) / 2.0
  }

  function Measured(b: Base, m: Pair): Twist
    requires Usable(b) && b.separation != 0.0
  {
    var left := WheelSpeed(b, if b.swap then m.second else m.first);
    var right := WheelSpeed(b, if b.swap then m.first else m.second);
    Twist(MeasuredSpeed(b, m), (right - left) / b.separation)
  }

  /* ---- the drive's formulas ---- */

  /** The cast from float to int: towards zero. */
  function Trunc(x: real): int { if x >= 0.0 then x.Floor else -(-x).Floor }

  /** Drive 2 is mounted mirrored. */
  function Mirrored(node: byte, rpm: real): real { if node == 2 then -rpm else rpm }

  function Pulses(target: real): int { Trunc(target * PULSES_PER_RPM) }

  function FeedbackRpm(node: byte, pulses: int): real {
    if node == 2 then pulses as real / -PULSES_PER_RPM else pulses as real / PULSES_PER_RPM
  }

  function Direction(sign: int): int { if sign < 0 then -1 else 1 }

  /** The mounting direction, applied to commands and to measurements. */
  function Turned(direction: int, rpm: real): real { direction as real * rpm }

  /** What the node publishes for a drive that turns exactly as commanded. */
  function Reported(node: byte, direction: int, rpm: real): real {
    Turned(direction, FeedbackRpm(node, Pulses(Mirrored(node, Turned(direction, rpm)))))
  }

  /* ---- bounds ---- */

  /** The value itself, or the limit on its side of zero if it is positive and passed. */
  predicate Within(x: real, max: real, y: real) {
    if max > 0.0 && Abs(x) > max then Abs(y) == max && (y > 0.0 <==> x > 0.0) else y == x
  }

  lemma LimitBounds(x: real, max: real)
    ensures Within(x, max, Limit(x, max))
    ensures max > 0.0 ==> Abs(Limit(x, max)) <= max
  {
  }

  /** Each component of t is the target's, within its own limit. */
  predicate Limited(b: Base, target: Twist, t: Twist) {
    Within(target.v, b.maxLinear, t.v) && Within(target.w, b.maxAngular, t.w)
  }

  /** A command that is too old counts as zero; any other is the target, limited. */
  lemma InForceMeans(b: Base, target: Twist, age: real)
    ensures age > b.timeout ==> InForce(b, target, age) == Twist(0.0, 0.0)
    ensures age <= b.timeout ==> Limited(b, target, InForce(b, target, age))
  {
    LimitBounds(target.v, b.maxLinear);
    LimitBounds(target.w, b.maxAngular);
  }

  /* ---- which way the wheels turn ---- */

  /** No speed means no shaft turns. */
  lemma StandingStill(b: Base)
    requires b.pi > 0.0
    ensures MotorCommand(b, Twist(0.0, 0.0)) == Pair(0.0, 0.0)
  {
    assert 0.0 * b.separation == 0.0;
    if Usable(b) {
      assert 0.0 / b.radius == 0.0;
    }
  }

  lemma ShaftFollows(b: Base, slow: real, fast: real)
    requires Usable(b) && b.pi > 0.0 && slow < fast
    ensures b.gear > 0.0 ==> ShaftRpm(b, slow) < ShaftRpm(b, fast)
    ensures b.gear < 0.0 ==> ShaftRpm(b, slow) > ShaftRpm(b, fast)
  {
    var k, d := RadToRpm(b), fast - slow;
    var x := d / b.radius;
    assert x * b.radius == d;
    assert k > 0.0 && x > 0.0;
    assert fast / b.radius - slow / b.radius == x;
    assert fast / b.radius * k - slow / b.radius * k == x * k;
    assert x * k > 0.0;
    Scaled(slow / b.radius * k, fast / b.radius * k, b.gear);
  }

  lemma Scaled(x: real, y: real, g: real)
    requires x < y
    ensures g > 0.0 ==> x * g < y * g
    ensures g < 0.0 ==> x * g > y * g
  {
    assert y * g - x * g == (y - x) * g;
  }

  /** Both shafts turn forward to drive forward, with a gear that keeps the sense. */
  lemma DrivesForward(b: Base, v: real)
    requires Usable(b) && b.pi > 0.0 && v > 0.0 && b.gear > 0.0
    ensures var cmd := MotorCommand(b, Twist(v, 0.0)); cmd.first == cmd.second > 0.0
  {
    ShaftFollows(b, 0.0, v);
    assert ShaftRpm(b, 0.0) == 0.0 by { assert 0.0 / b.radius == 0.0; }
    assert 0.0 * b.separation == 0.0;
  }

  /** To turn left the right wheel is the faster one; it is the second drive's unless the
      drives are swapped. */
  lemma TurnsLeft(b: Base, t: Twist)
    requires Usable(b) && b.pi > 0.0 && b.gear > 0.0 && b.separation > 0.0 && t.w > 0.0
    ensures var cmd := MotorCommand(b, t);
            if b.swap then cmd.first > cmd.second else cmd.second > cmd.first
  {
    assert t.w * b.separation > 0.0;
    ShaftFollows(b, LeftSpeed(b, t), RightSpeed(b, t));
    hide ShaftRpm;
  }

  /** At one turn of the wheel a second the base moves one circumference a second. */
  lemma OneTurn(b: Base)
    requires Usable(b)
    ensures WheelSpeed(b, 60.0 * b.gear) == 2.0 * b.pi * b.radius
  {
    assert 60.0 * b.gear / b.gear == 60.0;
    assert 60.0 * RpmToRad(b) == 2.0 * b.pi;
  }

  /** Drive 2 is mounted mirrored, and a negative direction parameter mirrors a drive
      once more: that decides the sign of the pulses. */
  lemma WhichWay(node: byte, parameter: int, rpm: real)
    requires rpm * PULSES_PER_RPM >= 1.0
    ensures var pulses := Pulses(Mirrored(node, Turned(Direction(parameter), rpm)));
            if (node == 2) == (parameter < 0) then pulses > 0 else pulses < 0
  {
    TurnedSign(Direction(parameter), rpm);
    assert (-rpm) * PULSES_PER_RPM == -(rpm * PULSES_PER_RPM);
  }

  lemma TruncError(x: real)
    ensures Abs(Trunc(x) as real - x) < 1.0
    ensures Abs(Trunc(x) as real) <= Abs(x)
  {
  }

  /** Rounded to pulses and back: within one pulse, and not further from zero. */
  lemma PulseError(t: real)
    ensures Abs(Pulses(t) as real / PULSES_PER_RPM - t) < 1.0 / PULSES_PER_RPM
    ensures Abs(Pulses(t) as real / PULSES_PER_RPM) <= Abs(t)
  {
    TruncError(t * PULSES_PER_RPM);
  }

  /** A drive that turns as commanded is reported within one pulse of the command, and
      never faster than commanded. */
  lemma ReportedError(node: byte, direction: int, rpm: real)
    requires direction == 1 || direction == -1
    ensures Abs(Reported(node, direction, rpm) - rpm) < 1.0 / PULSES_PER_RPM
    ensures Abs(Reported(node, direction, rpm)) <= Abs(rpm)
  {
    var t := Mirrored(node, Turned(direction, rpm));
    TurnedSign(direction, rpm);
    TurnedSign(direction, FeedbackRpm(node, Pulses(t)));
    PulseError(t);
    FeedbackSign(node, Pulses(t));
    hide Pulses, Turned, FeedbackRpm;
  }

  lemma TurnedSign(direction: int, rpm: real)
    requires direction == 1 || direction == -1
    ensures Turned(direction, rpm) == if direction == 1 then rpm else -rpm
  {
  }

  lemma FeedbackSign(node: byte, pulses: int)
    ensures FeedbackRpm(node, pulses) == Mirrored(node, pulses as real / PULSES_PER_RPM)
  {
  }

  /** One pulse of one drive, as a speed of its wheel. */
  function Epsilon(b: Base): real
    requires Usable(b)
  {
    1.0 / PULSES_PER_RPM * RpmToRad(b) * b.radius / Abs(b.gear)
  }

  /** Wheel speed and shaft speed are inverse. */
  lemma WheelInverse(b: Base, speed: real)
    requires Usable(b) && b.pi > 0.0
    ensures WheelSpeed(b, ShaftRpm(b, speed)) == speed
  {
    var k, q := RpmToRad(b), RadToRpm(b);
    assert k * q == 1.0;
    var x := speed / b.radius;
    assert x * b.radius == speed;
    assert x * q * b.gear / b.gear == x * q;
    assert x * q * k == x * (k * q);
  }

  lemma WheelLinear(b: Base, m: real, n: real)
    requires Usable(b)
    ensures WheelSpeed(b, m) - WheelSpeed(b, n) == WheelSpeed(b, m - n)
  {
    var k := RpmToRad(b);
    assert m / b.gear - n / b.gear == (m - n) / b.gear;
    assert (m / b.gear - n / b.gear) * k == m / b.gear * k - n / b.gear * k;
  }

  lemma WheelBound(b: Base, d: real)
    requires Usable(b) && b.pi > 0.0 && Abs(d) < 1.0 / PULSES_PER_RPM
    ensures Abs(WheelSpeed(b, d)) < Epsilon(b)
  {
    var k, g := RpmToRad(b) * b.radius, Abs(b.gear);
    assert k > 0.0;
    Magnitude(d, b.gear, RpmToRad(b), b.radius);
    Shrink(Abs(d), 1.0 / PULSES_PER_RPM, k / g);
  }

  lemma Magnitude(d: real, gear: real, k: real, r: real)
    requires gear != 0.0 && k > 0.0 && r > 0.0
    ensures Abs(d / gear * k * r) == Abs(d) * (k * r / Abs(gear)) && k * r / Abs(gear) > 0.0
  {
    var x, f := d / gear, k * r;
    assert f > 0.0;
    assert x * k * r == x * f;
    assert Abs(x) == Abs(d) / Abs(gear) by { Quotient(d, gear); }
    assert Abs(x * f) == Abs(x) * f;
  }

  lemma Quotient(d: real, g: real)
    requires g != 0.0
    ensures Abs(d / g) == Abs(d) / Abs(g)
  {
    var x := d / g;
    assert x * g == d;
    if g > 0.0 {
      assert x >= 0.0 <==> d >= 0.0;
    } else {
      assert x >= 0.0 <==> d <= 0.0 by { Product(x, g); }
    }
    assert Abs(x) * Abs(g) == Abs(d);
  }

  lemma Product(x: real, g: real)
    requires g < 0.0
    ensures x > 0.0 ==> x * g < 0.0
    ensures x < 0.0 ==> x * g > 0.0
  {
  }

  lemma Shrink(a: real, b: real, f: real)
    requires a < b && f > 0.0
    ensures a * f < b * f
  {
  }

  /** A wheel that turns as commanded is measured within one pulse of its speed. */
  lemma WheelError(b: Base, node: byte, direction: int, speed: real)
    requires Usable(b) && b.pi > 0.0 && (direction == 1 || direction == -1)
    ensures Abs(WheelSpeed(b, Reported(node, direction, ShaftRpm(b, speed))) - speed) < Epsilon(b)
  {
    hide ShaftRpm, WheelSpeed, Reported, Epsilon;
    var m := ShaftRpm(b, speed);
    var r := Reported(node, direction, m);
    ReportedError(node, direction, m);
    WheelLinear(b, r, m);
    WheelBound(b, r - m);
    WheelInverse(b, speed);
  }

  /* ---- the whole path ---- */

  /** Two drives by id and mounting direction, in the order of the node's list. */
  datatype Drives = Drives(first: byte, second: byte, firstDir: int, secondDir: int)

  /** The published speeds when both drives turn exactly as commanded. */
  function ReportedPair(d: Drives, cmd: Pair): Pair {
    Pair(Reported(d.first, d.firstDir, cmd.first), Reported(d.second, d.secondDir, cmd.second))
  }

  lemma Halves(l: real, r: real, dl: real, dr: real, e: real, separation: real)
    requires Abs(dl - l) < e && Abs(dr - r) < e && separation != 0.0
    ensures Abs((dl + dr) / 2.0 - (l + r) / 2.0) < e
    ensures Abs((dr - dl) / separation - (r - l) / separation) < 2.0 * e / Abs(separation)
  {
    var d := dr - dl - (r - l);
    assert Abs(d) < 2.0 * e;
    assert (dr - dl) / separation - (r - l) / separation == d / separation;
    Quotient(d, separation);
    DivideLess(Abs(d), 2.0 * e, Abs(separation));
  }

  lemma DivideLess(a: real, b: real, c: real)
    requires a < b && c > 0.0
    ensures a / c < b / c
  {
    assert b / c - a / c == (b - a) / c;
  }

  /** Without a speed command the base is measured standing still, exactly. */
  lemma MeasuredStill(b: Base, d: Drives)
    requires Usable(b) && b.pi > 0.0 && b.separation != 0.0
    requires d.firstDir in {-1, 1} && d.secondDir in {-1, 1}
    ensures Measured(b, ReportedPair(d, MotorCommand(b, Twist(0.0, 0.0)))) == Twist(0.0, 0.0)
  {
    StandingStill(b);
    ReportedError(d.first, d.firstDir, 0.0);
    ReportedError(d.second, d.secondDir, 0.0);
    hide Reported, MotorCommand;
    assert WheelSpeed(b, 0.0) == 0.0 by { assert 0.0 / b.gear == 0.0; }
    assert 0.0 / b.separation == 0.0;
  }

  /** From command to odometry: with drives that turn as commanded, the measured speed
      is within one pulse of the command in force, and the turn rate within two pulses
      over the wheel separation, whatever the swap, directions and mirroring. */
  lemma OdometryError(b: Base, d: Drives, t: Twist)
    requires Usable(b) && b.pi > 0.0 && b.separation != 0.0
    requires d.firstDir in {-1, 1} && d.secondDir in {-1, 1}
    ensures var m := Measured(b, ReportedPair(d, MotorCommand(b, t)));
            Abs(m.v - t.v) < Epsilon(b) && Abs(m.w - t.w) < 2.0 * Epsilon(b) / Abs(b.separation)
  {
    hide WheelSpeed, ShaftRpm, Reported, Epsilon, LeftSpeed, RightSpeed;
    var l, r := LeftSpeed(b, t), RightSpeed(b, t);
    WheelError(b, d.first, d.firstDir, l);
    WheelError(b, d.second, d.secondDir, r);
    WheelError(b, d.first, d.firstDir, r);
    WheelError(b, d.second, d.secondDir, l);
    var p := ReportedPair(d, MotorCommand(b, t));
    var ml := WheelSpeed(b, if b.swap then p.second else p.first);
    var mr := WheelSpeed(b, if b.swap then p.first else p.second);
    Halves(l, r, ml, mr, Epsilon(b), b.separation);
    SpeedsMean(b, t);
  }

  lemma SpeedsMean(b: Base, t: Twist)
    requires b.separation != 0.0
    ensures (LeftSpeed(b, t) + RightSpeed(b, t)) / 2.0 == t.v
    ensures (RightSpeed(b, t) - LeftSpeed(b, t)) / b.separation == t.w
  {
    assert RightSpeed(b, t) - LeftSpeed(b, t) == t.w * b.separation;
  }
}
