/** The safety PLC's inputs and outputs, read over Modbus, and the emergency stop
    computed from them. */
module SafetyEstop {
  import opened Bytes
  import opened Bits
  import opened ModbusBits

  datatype Signal = Signal(name: string, bit: int)

  /** One element of a parameter list; Malformed lacks a member it needs. */
  datatype RawSignal = MalformedSignal | RawSignal(name: string, bit: int)

  datatype RawSource = MalformedSource | RawSource(name: string, activeLow: bool)

  /** A list parameter: not there (or not a list), or its elements. */
  datatype List<T> = Absent | Given(items: seq<T>)

  datatype Params = Params(
    unitId: int,
    port: int,
    timeout: real,
    rate: real,
    inputBase: int,
    outputBase: int,
    inputCount: int,
    outputCount: int,
    inputs: List<RawSignal>,
    outputs: List<RawSignal>,
    configOutputs: List<RawSignal>,
    sources: List<RawSource>,
    powerOutput: string)

  /** What the constructor settles on; an empty power output switches that condition
      off. */
  datatype Config = Config(
    inputCount: nat,
    outputCount: nat,
    inputs: seq<Signal>,
    outputs: seq<Signal>,
    configOutputs: seq<Signal>,
    sources: map<string, bool>,
    powerOutput: string)

  datatype Startup = Rejected | Started(config: Config)

  const DEFAULT_INPUTS: seq<Signal> := [
    Signal("safety_emergency_1b", 1), Signal("safety_emergency_2b", 2),
    Signal("safety_auto_mode", 4), Signal("safety_manual_mode", 5),
    Signal("safety_reset_switch", 6), Signal("safety_brake_release_sw", 7),
    Signal("safety_bumper_front", 9), Signal("safety_bumper_rear", 10)]

  const DEFAULT_OUTPUTS: seq<Signal> := [
    Signal("motor_sto_01sr", 0), Signal("motor_sto_02sr", 1), Signal("traction_motor_power_on", 3)]

  const DEFAULT_CONFIG_OUTPUTS: seq<Signal> := [Signal("brake_release", 16)]

  const DEFAULT_SOURCES: seq<RawSource> := [
    RawSource("safety_emergency_1b", true), RawSource("safety_emergency_2b", true),
    RawSource("safety_bumper_front", true), RawSource("safety_bumper_rear", true)]

  /* ---- loading signals ---- */

  predicate Acceptable(raw: RawSignal, available: int) {
    raw.RawSignal? && raw.name != "" && '/' !in raw.name && 0 <= raw.bit < available
  }

  predicate Named(name: string, signals: seq<Signal>) {
    exists i :: 0 <= i < |signals| && signals[i].name == name
  }

  predicate DistinctNames(signals: seq<Signal>) {
    forall i, j :: 0 <= i < j < |signals| ==> signals[i].name != signals[j].name
  }

  predicate InRange(signals: seq<Signal>, available: int) {
    forall i :: 0 <= i < |signals| ==> 0 <= signals[i].bit < available
  }

  /** The acceptable elements, each name at its first acceptable occurrence. */
  function Accepted(items: seq<RawSignal>, available: int): (r: seq<Signal>)
    ensures DistinctNames(r) && InRange(r, available)
    ensures forall i :: 0 <= i < |r| ==> r[i].name != "" && '/' !in r[i].name
  {
    if items == [] then []
    else
      var before := Accepted(items[..|items| - 1], available);
      var raw := items[|items| - 1];
      if Acceptable(raw, available) && !Named(raw.name, before) then before + [Signal(raw.name, raw.bit)] else before
  }

  function ItemsOf<T>(list: List<T>): seq<T> { if list.Given? then list.items else [] }

  function Loaded(list: List<RawSignal>, defaults: seq<Signal>, available: int): seq<Signal> {
    var accepted := Accepted(ItemsOf(list), available);
    if accepted == [] then defaults else accepted
  }

  /** A well-formed element, with a name fit for a topic and a bit inside the block, is there
      under its own bit unless an earlier one inside the block has its name. */
  lemma {:induction false} AcceptedKeepsFirst(items: seq<RawSignal>, available: int, k: nat)
    requires k < |items| && items[k].RawSignal? && items[k].name != "" && '/' !in items[k].name
    requires 0 <= items[k].bit < available
    requires forall j :: 0 <= j < k && items[j].RawSignal? && 0 <= items[j].bit < available ==>
               items[j].name != items[k].name
    ensures Signal(items[k].name, items[k].bit) in Accepted(items, available)
    decreases |items|
  {
    if k < |items| - 1 {
      AcceptedKeepsFirst(items[..|items| - 1], available, k);
    } else {
      AcceptedComesFromItems(items[..k], available, items[k].name);
    }
  }

  lemma {:induction false} AcceptedComesFromItems(items: seq<RawSignal>, available: int, name: string)
    ensures Named(name, Accepted(items, available)) <==>
            exists j :: 0 <= j < |items| && Acceptable(items[j], available) && items[j].name == name
    decreases |items|
  {
    if items != [] {
      var last := |items| - 1;
      var before := Accepted(items[..last], available);
      AcceptedComesFromItems(items[..last], available, name);
      if Acceptable(items[last], available) && !Named(items[last].name, before) {
        var added := Signal(items[last].name, items[last].bit);
        assert (before + [added])[|before|] == added;
        assert forall i :: 0 <= i < |before| ==> (before + [added])[i] == before[i];
      }
    }
  }

  /** The defaults are taken unchecked: the loaded bits fit the polled block exactly
      when something was accepted or the defaults happen to fit. */
  lemma LoadedFits(list: List<RawSignal>, defaults: seq<Signal>, available: int)
    ensures InRange(Loaded(list, defaults, available), available)
            <==> Accepted(ItemsOf(list), available) != [] || InRange(defaults, available)
  {
  }

  method LoadSignals(list: List<RawSignal>, defaults: seq<Signal>, available: int) returns (signals: seq<Signal>)
    ensures signals == Loaded(list, defaults, available)
  {
    signals := [];
    if list.Given? {
      for i := 0 to |list.items|
        invariant signals == Accepted(list.items[..i], available)
      {
        assert list.items[..i + 1][..i] == list.items[..i];
        var raw := list.items[i];
        if !Acceptable(raw, available) {
          continue;
        }
        var duplicate := AnyNamed(raw.name, signals);
        if duplicate {
          continue;
        }
        signals := signals + [Signal(raw.name, raw.bit)];
      }
      assert list.items[..|list.items|] == list.items;
    }
    if signals == [] {
      signals := defaults;
    }
  }

  method AnyNamed(name: string, signals: seq<Signal>) returns (found: bool)
    ensures found == Named(name, signals)
  {
    for i := 0 to |signals|
      invariant forall j :: 0 <= j < i ==> signals[j].name != name
    {
      if signals[i].name == name {
        return true;
      }
    }
    found := false;
  }

  /* ---- emergency-stop sources ---- */

  /** Registered: the sources that name an input, each with its last polarity. */
  function Registered(items: seq<RawSource>, inputs: seq<Signal>): (m: map<string, bool>)
    ensures forall n :: n in m ==> Named(n, inputs)
  {
    if items == [] then map[]
    else
      var before := Registered(items[..|items| - 1], inputs);
      var raw := items[|items| - 1];
      if raw.RawSource? && Named(raw.name, inputs) then before[raw.name := raw.activeLow] else before
  }

  function SourceItems(list: List<RawSource>): seq<RawSource> {
    if list.Given? then list.items else DEFAULT_SOURCES
  }

  method LoadEstopSources(list: List<RawSource>, inputs: seq<Signal>) returns (sources: map<string, bool>)
    ensures sources == Registered(SourceItems(list), inputs)
  {
    var items := SourceItems(list);
    sources := map[];
    for i := 0 to |items|
      invariant sources == Registered(items[..i], inputs)
    {
      assert items[..i + 1][..i] == items[..i];
      match items[i]
      case MalformedSource =>
      case RawSource(name, activeLow) =>
        var exists_ := AnyNamed(name, inputs);
        if exists_ {
          sources := sources[name := activeLow];
        }
    }
    assert items[..|items|] == items;
  }

  /** A well-formed element with this name, at its index k. */
  predicate SourceAt(items: seq<RawSource>, k: nat, name: string) {
    k < |items| && items[k].RawSource? && items[k].name == name
  }

  /** Registered is exactly what names an input and stands in the list. */
  lemma {:induction false} RegisteredExactly(items: seq<RawSource>, inputs: seq<Signal>, name: string)
    ensures name in Registered(items, inputs) <==>
              Named(name, inputs) && exists k: nat :: SourceAt(items, k, name)
    decreases |items|
  {
    hide Named;
    if items != [] {
      var before, last := items[..|items| - 1], |items| - 1;
      RegisteredExactly(before, inputs, name);
      var raw := items[last];
      assert SourceAt(items, last, name) <==> raw.RawSource? && raw.name == name;
      if k: nat :| SourceAt(before, k, name) {
        assert SourceAt(items, k, name);
      } else {
        assert forall k: nat :: SourceAt(items, k, name) && k < last ==> SourceAt(before, k, name);
      }
    }
  }

  /** The last element of a name decides: the source is triggered by the level that
      element says. */
  lemma {:induction false} LastPolarityWins(items: seq<RawSource>, inputs: seq<Signal>, k: nat)
    requires k < |items| && items[k].RawSource? && Named(items[k].name, inputs)
    requires forall j: nat :: k < j ==> !SourceAt(items, j, items[k].name)
    ensures items[k].name in Registered(items, inputs)
    ensures Registered(items, inputs)[items[k].name] == items[k].activeLow
    decreases |items|
  {
    hide Named;
    var before, last := items[..|items| - 1], |items| - 1;
    if k < last {
      forall j: nat | k < j
        ensures !SourceAt(before, j, items[k].name)
      {
        assert !SourceAt(items, j, items[k].name);
      }
      LastPolarityWins(before, inputs, k);
      assert !SourceAt(items, last, items[k].name);
    }
  }

  /* ---- the constructor ---- */

  predicate ValidRange(base: int, count: int) {
    0 <= base <= 65535 && 0 < count <= 2000 && base + count <= 65536
  }

  /** What a started node can rely on: every source names a polled input, and a power
      output names a polled output. */
  ghost predicate Tabled(c: Config) {
    && 0 < c.inputCount <= 2000 && 0 < c.outputCount <= 2000
    && DistinctNames(c.inputs) && DistinctNames(c.outputs)
    && (forall n :: n in c.sources ==> Named(n, c.inputs))
    && (c.powerOutput != "" ==> Named(c.powerOutput, c.outputs))
  }

  /** The bits of all three tables lie in the polled blocks. */
  predicate Fits(c: Config) {
    && InRange(c.inputs, c.inputCount) && InRange(c.outputs, c.outputCount)
    && InRange(c.configOutputs, c.inputCount)
  }

  ghost predicate Sound(c: Config) { Tabled(c) && Fits(c) }

  /** The defaults fit the blocks, or are not needed. */
  predicate DefaultsFit(p: Params) {
    && (Accepted(ItemsOf(p.inputs), p.inputCount) == [] ==> InRange(DEFAULT_INPUTS, p.inputCount))
    && (Accepted(ItemsOf(p.outputs), p.outputCount) == [] ==> InRange(DEFAULT_OUTPUTS, p.outputCount))
    && (Accepted(ItemsOf(p.configOutputs), p.inputCount) == [] ==> InRange(DEFAULT_CONFIG_OUTPUTS, p.inputCount))
  }

  /** What the constructor settles on for valid parameters. */
  function Resolved(p: Params): Config
    requires p.inputCount > 0 && p.outputCount > 0
  {
    var inputs := Loaded(p.inputs, DEFAULT_INPUTS, p.inputCount);
    var outputs := Loaded(p.outputs, DEFAULT_OUTPUTS, p.outputCount);
    var configOutputs := Loaded(p.configOutputs, DEFAULT_CONFIG_OUTPUTS, p.inputCount);
    Config(p.inputCount, p.outputCount, inputs, outputs, configOutputs, Registered(SourceItems(p.sources), inputs),
           if Named(p.powerOutput, outputs) then p.powerOutput else "")
  }

  /** A name is both an output and a configured input-side output. */
  predicate Clash(p: Params) {
    exists i :: 0 <= i < |Loaded(p.configOutputs, DEFAULT_CONFIG_OUTPUTS, p.inputCount)| &&
      Named(Loaded(p.configOutputs, DEFAULT_CONFIG_OUTPUTS, p.inputCount)[i].name,
            Loaded(p.outputs, DEFAULT_OUTPUTS, p.outputCount))
  }

  lemma DefaultNamesDiffer()
    ensures DistinctNames(DEFAULT_INPUTS) && DistinctNames(DEFAULT_OUTPUTS)
  {
    assert forall i, j :: 0 <= i < j < |DEFAULT_INPUTS| ==>
      |DEFAULT_INPUTS[i].name| != |DEFAULT_INPUTS[j].name| || DEFAULT_INPUTS[i].name[7] != DEFAULT_INPUTS[j].name[7]
      || DEFAULT_INPUTS[i].name[|DEFAULT_INPUTS[i].name| - 2] != DEFAULT_INPUTS[j].name[|DEFAULT_INPUTS[j].name| - 2];
    assert DEFAULT_OUTPUTS[0].name[11] != DEFAULT_OUTPUTS[1].name[11];
    assert |DEFAULT_OUTPUTS[2].name| > |DEFAULT_OUTPUTS[0].name|;
    assert |DEFAULT_OUTPUTS[2].name| > |DEFAULT_OUTPUTS[1].name|;
  }

  /** What starts has its tables in order, and their bits fit exactly when the defaults
      do. */
  lemma ResolvedSound(p: Params)
    requires ValidRange(p.inputBase, p.inputCount) && ValidRange(p.outputBase, p.outputCount)
    ensures Tabled(Resolved(p))
    ensures Fits(Resolved(p)) <==> DefaultsFit(p)
  {
    hide Named;
    DefaultNamesDiffer();
    LoadedFits(p.inputs, DEFAULT_INPUTS, p.inputCount);
    LoadedFits(p.outputs, DEFAULT_OUTPUTS, p.outputCount);
    LoadedFits(p.configOutputs, DEFAULT_CONFIG_OUTPUTS, p.inputCount);
  }

  /** A range is valid exactly when it is one request long and each of its addresses
      fits the sixteen bits of the request. */
  lemma RangeFitsRequest(base: int, count: int)
    ensures ValidRange(base, count) <==>
              0 < count <= 2000 && forall i :: 0 <= i < count ==> AddressFits(base, i)
  {
    if 0 < count <= 2000 && forall i :: 0 <= i < count ==> AddressFits(base, i) {
      assert AddressFits(base, 0) && AddressFits(base, count - 1);
    }
  }

  predicate AddressFits(base: int, i: int) { 0 <= base + i < 0x1_0000 }

  /** No name clashes exactly when all outputs are published under different names. */
  lemma ClashFree(p: Params)
    requires p.inputCount > 0 && p.outputCount > 0
    ensures !Clash(p) <==> DistinctNames(Resolved(p).outputs + Resolved(p).configOutputs)
  {
    hide Registered, Accepted;
    DefaultNamesDiffer();
    LoadedDiffer(p.outputs, DEFAULT_OUTPUTS, p.outputCount);
    LoadedDiffer(p.configOutputs, DEFAULT_CONFIG_OUTPUTS, p.inputCount);
    var a, b := Resolved(p).outputs, Resolved(p).configOutputs;
    var all := a + b;
    if Clash(p) {
      var i :| 0 <= i < |b| && Named(b[i].name, a);
      var j :| 0 <= j < |a| && a[j].name == b[i].name;
      assert all[j] == a[j] && all[|a| + i] == b[i];
    } else {
      forall i, j | 0 <= i < j < |all|
        ensures all[i].name != all[j].name
      {
        if i < |a| <= j {
          assert !Named(b[j - |a|].name, a);
          assert a[i].name != b[j - |a|].name;
        }
      }
    }
  }

  lemma LoadedDiffer(list: List<RawSignal>, defaults: seq<Signal>, available: int)
    requires DistinctNames(defaults)
    ensures DistinctNames(Loaded(list, defaults, available))
  {
  }

  /** The checks of the plain parameters. */
  predicate ValidParams(p: Params) {
    && 0 <= p.unitId <= 255 && 0 < p.port <= 65535 && p.timeout > 0.0 && p.rate > 0.0
    && ValidRange(p.inputBase, p.inputCount) && ValidRange(p.outputBase, p.outputCount)
  }

  /** Without a list of sources the node starts with the four default ones, as far as
      such inputs exist, each triggered by a low level. */
  lemma DefaultSources(p: Params)
    requires ValidRange(p.inputBase, p.inputCount) && ValidRange(p.outputBase, p.outputCount) && p.sources.Absent?
    ensures forall n :: n in Resolved(p).sources <==> Named(n, Resolved(p).inputs) && n in DEFAULT_NAMES
    ensures forall n :: n in Resolved(p).sources ==> Resolved(p).sources[n]
  {
    hide Named, Registered;
    var inputs := Resolved(p).inputs;
    assert SourceItems(p.sources) == DEFAULT_SOURCES;
    DefaultsDiffer();
    forall n
      ensures n in Registered(DEFAULT_SOURCES, inputs) <==> Named(n, inputs) && n in DEFAULT_NAMES
      ensures n in Registered(DEFAULT_SOURCES, inputs) ==> Registered(DEFAULT_SOURCES, inputs)[n]
    {
      RegisteredExactly(DEFAULT_SOURCES, inputs, n);
      if n in DEFAULT_NAMES {
        var k: nat :| k < 4 && DEFAULT_NAMES[k] == n;
        assert SourceAt(DEFAULT_SOURCES, k, n);
        if Named(n, inputs) {
          forall j: nat | k < j
            ensures !SourceAt(DEFAULT_SOURCES, j, n)
          {
          }
          LastPolarityWins(DEFAULT_SOURCES, inputs, k);
        }
      } else if k: nat :| SourceAt(DEFAULT_SOURCES, k, n) {
        assert DEFAULT_NAMES[k] == n;
      }
    }
  }

  const DEFAULT_NAMES: seq<string> := [
    "safety_emergency_1b", "safety_emergency_2b", "safety_bumper_front", "safety_bumper_rear"]

  lemma DefaultsDiffer()
    ensures forall i, j :: 0 <= i < j < 4 ==> DEFAULT_NAMES[i] != DEFAULT_NAMES[j]
    ensures |DEFAULT_SOURCES| == 4
    ensures forall i :: 0 <= i < 4 ==> DEFAULT_SOURCES[i] == RawSource(DEFAULT_NAMES[i], true)
  {
    assert DEFAULT_NAMES[0][17] != DEFAULT_NAMES[1][17];
    assert |DEFAULT_NAMES[2]| > |DEFAULT_NAMES[3]|;
    assert DEFAULT_NAMES[0][7] == DEFAULT_NAMES[1][7] == 'e' && DEFAULT_NAMES[2][7] == DEFAULT_NAMES[3][7] == 'b';
  }

  /** A power output that is a polled output is the one the node watches. */
  lemma PowerIsResolved(p: Params)
    requires p.inputCount > 0 && p.outputCount > 0
    ensures Resolved(p).powerOutput == if Named(p.powerOutput, Resolved(p).outputs) then p.powerOutput else ""
    ensures Resolved(p).outputs == Loaded(p.outputs, DEFAULT_OUTPUTS, p.outputCount)
  {
  }

  /** Sixteen inputs and the default tables: the node starts, and bit 16 of the configured
      output lies outside the polled block. */
  const SIXTEEN_INPUTS := Params(1, 502, 1.0, 10.0, 0, 0, 16, 4, Absent, Absent, Absent, Absent, "")

  lemma DefaultsCanOverrun()
    ensures ValidParams(SIXTEEN_INPUTS) && !Clash(SIXTEEN_INPUTS)
    ensures !Fits(Resolved(SIXTEEN_INPUTS))
  {
    var p := SIXTEEN_INPUTS;
    assert Loaded(p.configOutputs, DEFAULT_CONFIG_OUTPUTS, 16) == DEFAULT_CONFIG_OUTPUTS;
    assert Loaded(p.outputs, DEFAULT_OUTPUTS, 4) == DEFAULT_OUTPUTS;
    assert Resolved(p).configOutputs[0].bit == 16;
    assert DEFAULT_CONFIG_OUTPUTS[0].name[0] == 'b';
    assert forall i :: 0 <= i < |DEFAULT_OUTPUTS| ==> DEFAULT_OUTPUTS[i].name[0] != 'b';
  }

  /** Starts exactly when the plain parameters are valid and no output name clashes. */
  method Start(p: Params) returns (s: Startup)
    ensures s.Started? <==> ValidParams(p) && !Clash(p)
    ensures s.Started? ==> s.config == Resolved(p)
  {
    hide Named, Accepted, Registered;
    if p.unitId < 0 || p.unitId > 255 {
      return Rejected;
    }
    if !ValidRange(p.inputBase, p.inputCount) || !ValidRange(p.outputBase, p.outputCount) {
      return Rejected;
    }
    if p.port <= 0 || p.port > 65535 || p.timeout <= 0.0 || p.rate <= 0.0 {
      return Rejected;
    }
    var inputs := LoadSignals(p.inputs, DEFAULT_INPUTS, p.inputCount);
    var outputs := LoadSignals(p.outputs, DEFAULT_OUTPUTS, p.outputCount);
    var configOutputs := LoadSignals(p.configOutputs, DEFAULT_CONFIG_OUTPUTS, p.inputCount);
    for i := 0 to |configOutputs|
      invariant forall j :: 0 <= j < i ==> !Named(configOutputs[j].name, outputs)
    {
      var duplicate := AnyNamed(configOutputs[i].name, outputs);
      if duplicate {
        return Rejected;
      }
    }
    var sources := LoadEstopSources(p.sources, inputs);
    var power := p.powerOutput;
    if power != "" {
      var known := AnyNamed(power, outputs);
      if !known {
        power := "";
      }
    }
    s := Started(Config(p.inputCount, p.outputCount, inputs, outputs, configOutputs, sources, power));
  }

  /* ---- reading a block ---- */

  /** What one request brings back: nothing, or the bytes of a response. */
  datatype Answer = NoAnswer | Response(pdu: seq<byte>)

  /** A response of the right function, byte count and length. */
  predicate Decodes(a: Answer, quantity: nat) {
    && 0 < quantity <= 2000 && a.Response?
    && |a.pdu| == (quantity + 7) / 8 + 2 && a.pdu[0] == 0x02 && a.pdu[1] as int == (quantity + 7) / 8
  }

  function Values(a: Answer, quantity: nat): seq<bool>
    requires Decodes(a, quantity)
  {
    Unpacked(a.pdu[2..], quantity)
  }

  method ReadDiscreteInputs(quantity: nat, a: Answer) returns (ok: bool, values: seq<bool>)
    ensures ok <==> Decodes(a, quantity)
    ensures ok ==> values == Values(a, quantity)
  {
    values := [];
    if quantity == 0 || quantity > 2000 || a.NoAnswer? {
      return false, [];
    }
    var expected := (quantity + 7) / 8;
    if |a.pdu| < 2 || a.pdu[0] != 0x02 || a.pdu[1] as int != expected || |a.pdu| != expected + 2 {
      return false, [];
    }
    values := Unpack(a.pdu[2..], quantity);
    ok := true;
  }

  /** The response of a conforming server to function 02. */
  function Fc02(bits: seq<bool>): seq<byte>
    requires |bits| <= 2000
  {
    [0x02, (|bits| + 7) / 8] + Packed(bits)
  }

  lemma Fc02Decodes(bits: seq<bool>)
    requires 0 < |bits| <= 2000
    ensures Decodes(Response(Fc02(bits)), |bits|) && Values(Response(Fc02(bits)), |bits|) == bits
  {
    UnpackInvertsPack(bits);
    assert Fc02(bits)[2..] == Packed(bits);
  }

  /* ---- polling ---- */

  predicate Triggered(activeLow: bool, value: bool) { if activeLow then !value else value }

  /** No registered source is triggered in the input block. */
  predicate Untriggered(c: Config, inputs: seq<bool>)
    requires InRange(c.inputs, |inputs|)
  {
    forall i :: 0 <= i < |c.inputs| && c.inputs[i].name in c.sources ==>
      !Triggered(c.sources[c.inputs[i].name], inputs[c.inputs[i].bit])
  }

  /** The power output, where one is configured, is on. */
  predicate Powered(c: Config, outputs: seq<bool>)
    requires InRange(c.outputs, |outputs|)
  {
    c.powerOutput != "" ==>
      forall i :: 0 <= i < |c.outputs| && c.outputs[i].name == c.powerOutput ==> outputs[c.outputs[i].bit]
  }

  /** Both blocks were read. */
  predicate Connected(c: Config, inputs: Answer, outputs: Answer) {
    Decodes(inputs, c.inputCount) && Decodes(outputs, c.outputCount)
  }

  /** The poll looks for a bit past the end of what was read, where the code's behaviour
      is undefined. */
  predicate Overruns(c: Config, inputs: Answer, outputs: Answer) { Connected(c, inputs, outputs) && !Fits(c) }

  /** The emergency stop a poll arrives at. */
  ghost predicate Stop(c: Config, inputs: Answer, outputs: Answer)
    requires !Overruns(c, inputs, outputs)
  {
    !(&& Connected(c, inputs, outputs)
      && Untriggered(c, Values(inputs, c.inputCount)) && Powered(c, Values(outputs, c.outputCount)))
  }

  class SafetyNode {
    const cfg: Config
    /** Everything published on the emergency-stop topic. */
    var stops: seq<bool>

    /** Before the first poll the emergency stop is assumed active. */
    constructor (c: Config)
      ensures cfg == c && stops == if c.sources != map[] then [true] else []
    {
      cfg, stops := c, [];
      new;
      PublishHardwareEstop(true);
    }

    method PublishHardwareEstop(active: bool)
      modifies this`stops
      ensures stops == if cfg.sources != map[] then old(stops) + [active] else old(stops)
    {
      if cfg.sources != map[] {
        stops := stops + [active];
      }
    }

    method AnyTriggered(values: seq<bool>) returns (active: bool, published: seq<bool>)
      requires InRange(cfg.inputs, |values|)
      ensures active == !Untriggered(cfg, values)
      ensures |published| == |cfg.inputs|
      ensures forall i :: 0 <= i < |cfg.inputs| ==> published[i] == values[cfg.inputs[i].bit]
    {
      active, published := false, [];
      for i := 0 to |cfg.inputs|
        invariant |published| == i && forall j :: 0 <= j < i ==> published[j] == values[cfg.inputs[j].bit]
        invariant active <==> exists j :: 0 <= j < i && cfg.inputs[j].name in cfg.sources &&
                                Triggered(cfg.sources[cfg.inputs[j].name], values[cfg.inputs[j].bit])
      {
        var signal := cfg.inputs[i];
        var value := values[signal.bit];
        published := published + [value];
        if signal.name in cfg.sources {
          active := active || Triggered(cfg.sources[signal.name], value);
        }
      }
    }

    method PowerLost(values: seq<bool>) returns (lost: bool)
      requires InRange(cfg.outputs, |values|) && DistinctNames(cfg.outputs)
      ensures lost == !Powered(cfg, values)
    {
      var found, on := false, false;
      for i := 0 to |cfg.outputs|
        invariant found ==> cfg.powerOutput != ""
        invariant found ==>
                    exists j :: 0 <= j < i && cfg.outputs[j].name == cfg.powerOutput && on == values[cfg.outputs[j].bit]
        invariant !found && cfg.powerOutput != "" ==> forall j :: 0 <= j < i ==> cfg.outputs[j].name != cfg.powerOutput
      {
        var signal := cfg.outputs[i];
        if cfg.powerOutput != "" && signal.name == cfg.powerOutput {
          found, on := true, values[signal.bit];
        }
      }
      lost := found && !on;
    }

    /** The values of the bits a table names. */
    method Look(table: seq<Signal>, values: seq<bool>) returns (states: seq<bool>)
      requires InRange(table, |values|)
      ensures |states| == |table| && forall i :: 0 <= i < |table| ==> states[i] == values[table[i].bit]
    {
      states := [];
      for i := 0 to |table|
        invariant |states| == i && forall j :: 0 <= j < i ==> states[j] == values[table[j].bit]
      {
        states := states + [values[table[i].bit]];
      }
    }

    /** One poll publishes the emergency stop it arrives at, the input states it arrived
        at it from, and the outputs; the configured ones are read from the inputs.  With
        tables that do not fit, a poll that reads both blocks ends where the code would
        read past them. */
    method Poll(inputs: Answer, outputs: Answer)
      returns (connected: bool, overrun: bool, published: seq<bool>, outputStates: seq<bool>, configStates: seq<bool>)
      requires Tabled(cfg)
      modifies this`stops
      ensures overrun <==> Overruns(cfg, inputs, outputs)
      ensures overrun ==> !connected && stops == old(stops)
      ensures !overrun ==> (connected <==> Connected(cfg, inputs, outputs))
      ensures !overrun ==>
                stops == if cfg.sources != map[] then old(stops) + [Stop(cfg, inputs, outputs)] else old(stops)
      ensures connected ==> |published| == |cfg.inputs|
      ensures connected ==> forall i :: 0 <= i < |cfg.inputs| ==>
                published[i] == Values(inputs, cfg.inputCount)[cfg.inputs[i].bit]
      ensures connected ==> |outputStates| == |cfg.outputs| && |configStates| == |cfg.configOutputs|
      ensures connected ==> forall i :: 0 <= i < |cfg.outputs| ==>
                outputStates[i] == Values(outputs, cfg.outputCount)[cfg.outputs[i].bit]
      ensures connected ==> forall i :: 0 <= i < |cfg.configOutputs| ==>
                configStates[i] == Values(inputs, cfg.inputCount)[cfg.configOutputs[i].bit]
    {
      overrun, published, outputStates, configStates := false, [], [], [];
      var outputOk, inputValues, outputValues := false, [], [];
      var inputOk;
      inputOk, inputValues := ReadDiscreteInputs(cfg.inputCount, inputs);
      if inputOk {
        outputOk, outputValues := ReadDiscreteInputs(cfg.outputCount, outputs);
      }
      connected := inputOk && outputOk;
      if !connected {
        PublishHardwareEstop(true);
        return;
      }
      if !Fits(cfg) {
        connected, overrun := false, true;
        return;
      }
      var active;
      active, published := AnyTriggered(inputValues);
      var lost := PowerLost(outputValues);
      outputStates := Look(cfg.outputs, outputValues);
      configStates := Look(cfg.configOutputs, inputValues);
      PublishHardwareEstop(active || lost);
    }
  }

  /** What was read is what the PLC holds: an accepted response is the conforming one. */
  predicate Carries(a: Answer, bits: seq<bool>) {
    0 < |bits| <= 2000 && (Decodes(a, |bits|) ==> a.pdu == Fc02(bits))
  }

  /** The source is an input whose bit in the PLC's image is high if the source is
      triggered low, and low if it is triggered high. */
  ghost predicate SourceClear(c: Config, source: string, image: seq<bool>)
    requires InRange(c.inputs, |image|) && source in c.sources
  {
    exists i :: 0 <= i < |c.inputs| && c.inputs[i].name == source
      && image[c.inputs[i].bit] == c.sources[source]
  }

  ghost predicate OutputOn(c: Config, name: string, image: seq<bool>)
    requires InRange(c.outputs, |image|)
  {
    exists i :: 0 <= i < |c.outputs| && c.outputs[i].name == name && image[c.outputs[i].bit]
  }

  /** End to end: a poll finds no emergency exactly when both blocks were read, every
      registered source is clear in the PLC's image, and the power output is on there. */
  lemma NoStopMeansClear(c: Config, inputs: Answer, outputs: Answer, inImage: seq<bool>, outImage: seq<bool>)
    requires Sound(c) && |inImage| == c.inputCount && |outImage| == c.outputCount
    requires Carries(inputs, inImage) && Carries(outputs, outImage)
    ensures !Stop(c, inputs, outputs) <==>
              && Decodes(inputs, c.inputCount) && Decodes(outputs, c.outputCount)
              && (forall n :: n in c.sources ==> SourceClear(c, n, inImage))
              && (c.powerOutput != "" ==> OutputOn(c, c.powerOutput, outImage))
  {
    hide Decodes, Values;
    if Decodes(inputs, c.inputCount) && Decodes(outputs, c.outputCount) {
      Fc02Decodes(inImage);
      Fc02Decodes(outImage);
      WhatIsCarried(inputs, inImage);
      WhatIsCarried(outputs, outImage);
      SourcesClear(c, inImage);
      PowerIsOn(c, outImage);
    }
  }

  /** With the default tables and sources, the default power output and blocks long
      enough for them: no emergency exactly when both blocks were read and the four
      source inputs and the power output are high. */
  lemma DefaultNodeStops(p: Params, inputs: Answer, outputs: Answer, inImage: seq<bool>, outImage: seq<bool>)
    requires ValidParams(p) && p.inputCount > 16 && p.outputCount > 3
    requires p.inputs.Absent? && p.outputs.Absent? && p.configOutputs.Absent? && p.sources.Absent?
    requires p.powerOutput == "traction_motor_power_on"
    requires |inImage| == p.inputCount && |outImage| == p.outputCount
    requires Carries(inputs, inImage) && Carries(outputs, outImage)
    ensures Sound(Resolved(p))
    ensures !Stop(Resolved(p), inputs, outputs) <==>
              && Decodes(inputs, p.inputCount) && Decodes(outputs, p.outputCount)
              && inImage[1] && inImage[2] && inImage[9] && inImage[10] && outImage[3]
  {
    hide Decodes, Stop, Carries, Registered, Tabled, Fits;
    var c := Resolved(p);
    ResolvedSound(p);
    assert c.inputs == DEFAULT_INPUTS && c.outputs == DEFAULT_OUTPUTS;
    assert Fits(c) by { DefaultTablesFit(p); }
    NoStopMeansClear(c, inputs, outputs, inImage, outImage);
    DefaultSources(p);
    DefaultsInPlace();
    assert c.powerOutput == "traction_motor_power_on";
    assert Tabled(c);
    hide Resolved;
    PowerBit(c, outImage);
    SourceBits(c, inImage);
  }

  lemma DefaultTablesFit(p: Params)
    requires p.inputCount > 16 && p.outputCount > 3
    requires p.inputs.Absent? && p.outputs.Absent? && p.configOutputs.Absent?
    ensures Fits(Resolved(p))
  {
  }

  /** The default sources by their place in the default table. */
  lemma DefaultsInPlace()
    ensures forall k :: 0 <= k < 4 ==> Named(DEFAULT_NAMES[k], DEFAULT_INPUTS)
    ensures Named("traction_motor_power_on", DEFAULT_OUTPUTS)
  {
    assert DEFAULT_INPUTS[0].name == DEFAULT_NAMES[0] && DEFAULT_INPUTS[1].name == DEFAULT_NAMES[1];
    assert DEFAULT_INPUTS[6].name == DEFAULT_NAMES[2] && DEFAULT_INPUTS[7].name == DEFAULT_NAMES[3];
    assert DEFAULT_OUTPUTS[2].name == "traction_motor_power_on";
  }

  lemma PowerBit(c: Config, image: seq<bool>)
    requires c.outputs == DEFAULT_OUTPUTS && InRange(c.outputs, |image|) && |image| > 3
    ensures OutputOn(c, "traction_motor_power_on", image) <==> image[3]
  {
    DefaultNamesDiffer();
    assert c.outputs[2] == Signal("traction_motor_power_on", 3);
    assert forall i :: 0 <= i < 2 ==> c.outputs[i].name != c.outputs[2].name;
  }

  lemma SourceBits(c: Config, image: seq<bool>)
    requires c.inputs == DEFAULT_INPUTS && InRange(c.inputs, |image|) && |image| > 10
    requires forall n :: n in c.sources <==> n in DEFAULT_NAMES
    requires forall n :: n in c.sources ==> c.sources[n]
    ensures (forall n :: n in c.sources ==> SourceClear(c, n, image))
            <==> image[1] && image[2] && image[9] && image[10]
  {
    hide SourceClear;
    SourceBit(c, image, 0);
    SourceBit(c, image, 1);
    SourceBit(c, image, 6);
    SourceBit(c, image, 7);
    assert DEFAULT_INPUTS[0].name == DEFAULT_NAMES[0] && DEFAULT_INPUTS[1].name == DEFAULT_NAMES[1];
    assert DEFAULT_INPUTS[6].name == DEFAULT_NAMES[2] && DEFAULT_INPUTS[7].name == DEFAULT_NAMES[3];
    assert forall k :: 0 <= k < 4 ==> DEFAULT_NAMES[k] in DEFAULT_NAMES;
    assert forall n :: n in DEFAULT_NAMES ==> exists k :: 0 <= k < 4 && DEFAULT_NAMES[k] == n;
  }

  lemma SourceBit(c: Config, image: seq<bool>, i: nat)
    requires c.inputs == DEFAULT_INPUTS && InRange(c.inputs, |image|) && i < |DEFAULT_INPUTS|
    requires DEFAULT_INPUTS[i].name in c.sources && c.sources[DEFAULT_INPUTS[i].name]
    ensures SourceClear(c, DEFAULT_INPUTS[i].name, image) <==> image[DEFAULT_INPUTS[i].bit]
  {
    DefaultNamesDiffer();
    assert forall j :: 0 <= j < |DEFAULT_INPUTS| && j != i ==> DEFAULT_INPUTS[j].name != DEFAULT_INPUTS[i].name;
    assert c.inputs[i] == DEFAULT_INPUTS[i];
  }

  lemma WhatIsCarried(a: Answer, bits: seq<bool>)
    requires Carries(a, bits) && Decodes(a, |bits|)
    ensures a == Response(Fc02(bits))
  {
  }

  lemma SourcesClear(c: Config, image: seq<bool>)
    requires Sound(c) && |image| == c.inputCount
    ensures Untriggered(c, image) <==> forall n :: n in c.sources ==> SourceClear(c, n, image)
  {
    if Untriggered(c, image) {
      forall n | n in c.sources
        ensures SourceClear(c, n, image)
      {
        assert Named(n, c.inputs);
        var i :| 0 <= i < |c.inputs| && c.inputs[i].name == n;
      }
    } else {
      var i :| 0 <= i < |c.inputs| && c.inputs[i].name in c.sources &&
               Triggered(c.sources[c.inputs[i].name], image[c.inputs[i].bit]);
      var n := c.inputs[i].name;
      assert forall j :: 0 <= j < |c.inputs| && c.inputs[j].name == n ==> j == i;
      assert !SourceClear(c, n, image);
    }
  }

  lemma PowerIsOn(c: Config, image: seq<bool>)
    requires Sound(c) && |image| == c.outputCount
    ensures Powered(c, image) <==> (c.powerOutput != "" ==> OutputOn(c, c.powerOutput, image))
  {
    if c.powerOutput != "" {
      var i :| 0 <= i < |c.outputs| && c.outputs[i].name == c.powerOutput;
      assert forall j :: 0 <= j < |c.outputs| && c.outputs[j].name == c.powerOutput ==> j == i;
    }
  }

  /** Any run, up to a poll that reads past a block: the first message says stop, and
      each poll adds the one it arrives at. */
  method Operate(c: Config, polls: seq<(Answer, Answer)>) returns (stops: seq<bool>, done: nat)
    requires Tabled(c)
    ensures done <= |polls| && forall i :: 0 <= i < done ==> !Overruns(c, polls[i].0, polls[i].1)
    ensures done < |polls| ==> Overruns(c, polls[done].0, polls[done].1)
    ensures c.sources == map[] ==> stops == []
    ensures c.sources != map[] ==> |stops| == done + 1 && stops[0]
    ensures c.sources != map[] ==>
              forall i :: 0 <= i < done ==> stops[i + 1] == Stop(c, polls[i].0, polls[i].1)
  {
    var node := new SafetyNode(c);
    done := |polls|;
    hide Overruns, Stop;
    for k := 0 to |polls|
      invariant node.cfg == c && done == |polls|
      invariant forall i :: 0 <= i < k ==> !Overruns(c, polls[i].0, polls[i].1)
      invariant c.sources == map[] ==> node.stops == []
      invariant c.sources != map[] ==> |node.stops| == k + 1 && node.stops[0]
      invariant c.sources != map[] ==>
                  forall i :: 0 <= i < k ==> node.stops[i + 1] == Stop(c, polls[i].0, polls[i].1)
    {
      var connected, overrun, published, outputStates, configStates := node.Poll(polls[k].0, polls[k].1);
      if overrun {
        return node.stops, k;
      }
    }
    stops := node.stops;
  }
}
