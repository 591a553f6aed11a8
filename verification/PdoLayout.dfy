/** The layout of the PDOs on both sides: what a drive that took the configuration puts
    into its frames is what the controller reads out of them, and the other way round. */
module PdoLayout {
  import opened Bytes
  import opened PdoMapping
  import opened EnableTasks
  import opened MotorControl
  import Path = VelocityPath

  /* ---- the objects of CiA 402 that are mapped ---- */

  const CONTROLWORD: nat := 0x6040
  const STATUSWORD: nat := 0x6041
  const MODE_OF_OPERATION: nat := 0x6060
  const ACTUAL_VELOCITY: nat := 0x606C
  const TARGET_VELOCITY: nat := 0x60FF

  /** A mapping entry names an object, its sub-index and its length in bits. */
  function IndexOf(entry: word): nat { entry / 0x1_0000 }

  function SizeOfEntry(entry: word): nat { entry % 0x100 / 8 }

  /** An object's value as so many bytes, low first. */
  function ValueBytes(value: int, size: nat): seq<byte>
    decreases size
  {
    if size == 0 then [] else [value % 0x100] + ValueBytes(value / 0x100, size - 1)
  }

  /** What a drive puts into a PDO: its mapped objects one after the other. */
  function Composed(entries: seq<word>, values: nat -> int): seq<byte> {
    if entries == [] then []
    else ValueBytes(values(IndexOf(entries[0])), SizeOfEntry(entries[0])) + Composed(entries[1..], values)
  }

  /** Where an object's bytes begin in it. */
  function OffsetOf(entries: seq<word>, index: nat): nat {
    if entries == [] || IndexOf(entries[0]) == index then 0
    else SizeOfEntry(entries[0]) + OffsetOf(entries[1..], index)
  }

  /** The object's value read out of a PDO that carries it, as an unsigned number. */
  function ReadOut(entries: seq<word>, data: seq<byte>, index: nat): nat {
    var at := OffsetOf(entries, index);
    if at <= |data| then Unsigned(data[at..], SizeFor(entries, index)) else 0
  }

  function SizeFor(entries: seq<word>, index: nat): nat {
    if entries == [] then 0
    else if IndexOf(entries[0]) == index then SizeOfEntry(entries[0])
    else SizeFor(entries[1..], index)
  }

  function Unsigned(data: seq<byte>, size: nat): nat {
    if size == 0 || data == [] then 0 else data[0] as int + 0x100 * Unsigned(data[1..], size - 1)
  }

  /* ---- a configured drive ---- */

  /** The entries a PDO of the drive uses. */
  function Used(p: Pdo): seq<word> { if p.count <= |p.entries| then p.entries[..p.count] else [] }

  /** The frame the drive sends for a transmit PDO. */
  function Transmits(d: Drive, comm: nat, values: nat -> int): CanFrame
    requires comm in d.pdos
  {
    CanFrame(d.pdos[comm].cob, Composed(Used(d.pdos[comm]), values))
  }

  /** A receive PDO takes frames under its own identifier only. */
  predicate Takes(d: Drive, comm: nat, f: CanFrame) {
    comm in d.pdos && f.id == d.pdos[comm].cob
  }

  /** The drive has taken the configuration. */
  ghost predicate Configured(node: byte, d: Drive) {
    exists before: Drive ::
      && Sound(before) && AllProper(MAPPINGS) && Ready(node, before.(pdos := before.defaults), MAPPINGS)
      && d == ServeAll(node, before, Configuration(node)).drive
  }

  lemma MappedAs(node: byte, d: Drive, k: nat)
    requires Configured(node, d) && k < |MAPPINGS|
    ensures var m := MAPPINGS[k];
            m.comm in d.pdos && d.pdos[m.comm].cob == m.cob + node as int && Used(d.pdos[m.comm]) == m.objects
  {
    hide ServeAll, Configuration, Ready, RemapAll;
    var before :| Sound(before) && AllProper(MAPPINGS) && Ready(node, before.(pdos := before.defaults), MAPPINGS)
      && d == ServeAll(node, before, Configuration(node)).drive;
    ConfigurationTakes(node, before);
    var m := MAPPINGS[k];
    assert m in MAPPINGS;
    assert AsWanted(node, before.(pdos := before.defaults), m, d);
    var p := before.defaults[m.comm];
    assert (m.objects + p.entries[|m.objects|..])[..|m.objects|] == m.objects;
  }

  lemma TwoBytes(value: int)
    ensures ValueBytes(value, 2) == Bytes16(value) && ValueBytes(value, 1) == [value % 0x100]
  {
    assert ValueBytes(value, 1) == [value % 0x100] + ValueBytes(value / 0x100, 0);
    assert ValueBytes(value, 2) == [value % 0x100] + ValueBytes(value / 0x100, 1);
    assert ValueBytes(value / 0x100, 1) == [value / 0x100 % 0x100] + ValueBytes(value / 0x100 / 0x100, 0);
  }

  lemma FourBytes(value: int)
    ensures ValueBytes(value, 4) == Bytes32(value)
  {
    var a := value / 0x100;
    var b := a / 0x100;
    var c := b / 0x100;
    assert ValueBytes(c, 1) == [c % 0x100] + ValueBytes(c / 0x100, 0);
    assert ValueBytes(b, 2) == [b % 0x100] + ValueBytes(c, 1);
    assert ValueBytes(a, 3) == [a % 0x100] + ValueBytes(b, 2);
    assert ValueBytes(value, 4) == [value % 0x100] + ValueBytes(a, 3);
  }

  lemma TwoEntries(e: word, f: word, values: nat -> int)
    ensures Composed([e, f], values)
            == ValueBytes(values(IndexOf(e)), SizeOfEntry(e)) + ValueBytes(values(IndexOf(f)), SizeOfEntry(f))
  {
    hide ValueBytes;
    assert [e, f][1..] == [f] && [f][1..] == [];
    assert Composed([f], values) == ValueBytes(values(IndexOf(f)), SizeOfEntry(f)) + Composed([], values);
  }

  /** The status word a configured drive reports is the one the controller stores. */
  lemma StatusArrives(node: byte, d: Drive, values: nat -> int, states: map<byte, Node>, now: int)
    requires Configured(node, d) && node < 0x80 && node in states && 0 <= values(STATUSWORD) < 0x1_0000
    ensures 0x1800 in d.pdos
    ensures Absorb(states, now, Received(Transmits(d, 0x1800, values)))
            == states[node := states[node].(status := values(STATUSWORD))]
  {
    hide Configured, Composed, ValueBytes;
    MappedAs(node, d, 2);
    TwoEntries(0x60410010, 0x60610008, values);
    TwoBytes(values(STATUSWORD));
    TwoBytes(values(0x6061));
    var v := values(STATUSWORD);
    var data := Transmits(d, 0x1800, values).data;
    assert data == Bytes16(v) + [values(0x6061) % 0x100];
    assert data[0] == Bytes16(v)[0] && data[1] == Bytes16(v)[1];
  }

  /** And so is the actual velocity. */
  lemma VelocityArrives(node: byte, d: Drive, values: nat -> int, states: map<byte, Node>, now: int)
    requires Configured(node, d) && node < 0x80 && node in states
    requires -0x8000_0000 <= values(ACTUAL_VELOCITY) < 0x8000_0000
    ensures 0x1801 in d.pdos
    ensures Absorb(states, now, Received(Transmits(d, 0x1801, values)))
            == states[node := states[node].(velocity := values(ACTUAL_VELOCITY))]
  {
    hide Configured, Composed, ValueBytes;
    MappedAs(node, d, 3);
    TwoEntries(0x606C0020, 0x60640020, values);
    FourBytes(values(ACTUAL_VELOCITY));
    FourBytes(values(0x6064));
    var v := values(ACTUAL_VELOCITY);
    var data, b := Transmits(d, 0x1801, values).data, Bytes32(v);
    assert data == b + Bytes32(values(0x6064));
    assert data[0] == b[0] && data[1] == b[1] && data[2] == b[2] && data[3] == b[3];
    Le32RoundTrip(v);
  }

  lemma UnsignedBytes(data: seq<byte>)
    ensures |data| >= 1 ==> Unsigned(data, 1) == data[0] as int
    ensures |data| >= 2 ==> Unsigned(data, 2) == Word16(data)
    ensures |data| >= 4 ==> Unsigned(data, 4) == Word32(data)
  {
    if |data| >= 4 {
      assert data[1..][1..] == data[2..] && data[2..][1..] == data[3..];
      assert Unsigned(data[3..], 1) == data[3] as int;
      assert Unsigned(data[2..], 2) == data[2] as int + 0x100 * Unsigned(data[3..], 1);
      assert Unsigned(data[1..], 3) == data[1] as int + 0x100 * Unsigned(data[2..], 2);
    }
    if |data| >= 2 {
      assert Unsigned(data[1..], 1) == data[1] as int;
    }
  }

  /** A control word reaches a configured drive as the control word and mode it was sent
      with. */
  lemma ControlArrives(node: byte, d: Drive, controlword: int, mode: byte)
    requires Configured(node, d) && 0 <= controlword < 0x1_0000
    ensures var f := Rpdo1(node, controlword, mode);
            && Takes(d, 0x1400, f) && 0x1400 in d.pdos
            && ReadOut(Used(d.pdos[0x1400]), f.data, CONTROLWORD) == controlword
            && ReadOut(Used(d.pdos[0x1400]), f.data, MODE_OF_OPERATION) == mode
  {
    hide Configured;
    MappedAs(node, d, 0);
    var entries: seq<word> := [0x60400010, 0x60600008];
    assert entries[1..] == [0x60600008];
    var data := Rpdo1(node, controlword, mode).data;
    assert data[0..] == data && data[2..] == [mode];
    UnsignedBytes(data);
    UnsignedBytes([mode]);
    hide Unsigned;
    assert OffsetOf(entries, CONTROLWORD) == 0 && OffsetOf(entries, MODE_OF_OPERATION) == 2;
  }

  /** A speed reaches it as its target velocity. */
  lemma SpeedArrives(node: byte, d: Drive, target: real)
    requires Configured(node, d) && -0x8000_0000 <= Path.Pulses(target) < 0x8000_0000
    ensures var f := VelocityFrame(node, target);
            && Takes(d, 0x1401, f) && 0x1401 in d.pdos
            && Signed(ReadOut(Used(d.pdos[0x1401]), f.data, TARGET_VELOCITY), 0x1_0000_0000) == Path.Pulses(target)
  {
    hide Configured, Path.Pulses;
    MappedAs(node, d, 1);
    var data := VelocityFrame(node, target).data;
    assert data[0..] == data;
    UnsignedBytes(data);
    Le32RoundTrip(Path.Pulses(target));
    hide Unsigned;
  }
}
