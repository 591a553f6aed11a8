/** The SDO writes that remap a drive's PDOs, run against the drive's object
    dictionary.  The dictionary refuses what CiA 301 V4.2.0, sections 7.5.2.35 to
    7.5.2.38, forbids: mapping entries may change only while the PDO is not valid
    and its entry count is zero, and the count only while it is not valid. */
module PdoMapping {
  import opened Bytes

  datatype CanFrame = CanFrame(id: nat, data: seq<byte>)

  const NMT_ID: nat := 0
  const NMT_START: byte := 0x01
  const NMT_RESET_COMMUNICATION: byte := 0x82
  const SDO_RX_ID_BASE: nat := 0x600
  const RPDO1_ID_BASE: nat := 0x200
  const RPDO2_ID_BASE: nat := 0x300
  const TPDO1_ID_BASE: nat := 0x180
  const TPDO2_ID_BASE: nat := 0x280
  const TPDO3_ID_BASE: nat := 0x380

  /** Bit 31 of a COB-ID: the PDO does not exist. */
  const INVALID: nat := 0x8000_0000

  type word = w: nat | w < 0x1_0000_0000
  type ushort = w: nat | w < 0x1_0000

  /* ---- the controller's side ---- */

  /** An expedited SDO download of four bytes (0x23) or one (0x2F). */
  function Sdo(node: byte, cmd: byte, index: ushort, sub: byte, value: word): CanFrame {
    CanFrame(SDO_RX_ID_BASE + node as int,
             [cmd, index % 0x100, index / 0x100, sub] + Bytes32(value))
  }

  function EntryWrites(node: byte, map_: ushort, objects: seq<word>): seq<CanFrame> {
    seq(|objects|, k requires 0 <= k < |objects| => Sdo(node, 0x23, map_, (k + 1) % 0x100, objects[k]))
  }

  /** What one call of setup_pdo_mapping sends. */
  function Remap(node: byte, comm: ushort, map_: ushort, cob: nat, objects: seq<word>): seq<CanFrame>
    requires cob + node as int < INVALID
  {
    [Sdo(node, 0x23, comm, 1, INVALID + cob + node as int),
     Sdo(node, 0x2F, comm, 2, 1),
     Sdo(node, 0x2F, map_, 0, 0)] +
    EntryWrites(node, map_, objects) +
    [Sdo(node, 0x2F, map_, 0, |objects| % 0x100),
     Sdo(node, 0x23, comm, 1, cob + node as int)]
  }

  /* ---- the drive's side ---- */

  /** One PDO: communication parameters, entry count and the 64 mapping entries. */
  datatype Pdo = Pdo(cob: word, kind: byte, count: nat, entries: seq<word>)

  predicate Exists(p: Pdo) { p.cob < INVALID }

  /** The PDOs of a drive, by the index of their communication record; the mapping
      record is 0x200 further.  A strict drive also refuses to change the CAN-ID of
      a PDO that exists. */
  datatype Drive = Drive(pdos: map<nat, Pdo>, strict: bool, defaults: map<nat, Pdo>, started: bool)

  predicate WellFormed(pdos: map<nat, Pdo>) {
    forall i :: i in pdos ==> i + 0x200 !in pdos && |pdos[i].entries| == 64
  }

  /** The dictionary and the power-on values are in order. */
  predicate Sound(d: Drive) { WellFormed(d.pdos) && WellFormed(d.defaults) }

  datatype Outcome = Outcome(pdo: Pdo, accepted: bool)

  function WriteComm(p: Pdo, strict: bool, sub: byte, size: nat, value: word): Outcome {
    if sub == 1 && size == 4 then
      if strict && Exists(p) && value % 0x4000_0000 != p.cob % 0x4000_0000 then Outcome(p, false)
      else Outcome(p.(cob := value), true)
    else if sub == 2 && size == 1 then Outcome(p.(kind := value % 0x100), true)
    else Outcome(p, false)
  }

  function WriteMapping(p: Pdo, sub: byte, size: nat, value: word): Outcome
    requires |p.entries| == 64
  {
    if Exists(p) then Outcome(p, false)
    else if sub == 0 && size == 1 && value <= 64 then Outcome(p.(count := value), true)
    else if 1 <= sub <= 64 && size == 4 && p.count == 0 then
      Outcome(p.(entries := p.entries[sub - 1 := value]), true)
    else Outcome(p, false)
  }

  /** What the dictionary guards: the mapping of a PDO that exists, and the entries of one
      whose count is not zero; and an accepted write changes just the field it names. */
  lemma DictionaryGuards(p: Pdo, strict: bool, sub: byte, size: nat, value: word)
    requires |p.entries| == 64
    ensures var o := WriteMapping(p, sub, size, value);
            && (o.accepted <==> !Exists(p) && if sub == 0 then size == 1 && value <= 64
                                              else sub <= 64 && size == 4 && p.count == 0)
            && o.pdo == (if !o.accepted then p else if sub == 0 then p.(count := value)
                         else p.(entries := p.entries[sub - 1 := value]))
    ensures var o := WriteComm(p, strict, sub, size, value);
            && (o.accepted <==> (sub == 1 && size == 4
                                 && (!strict || !Exists(p) || value % 0x4000_0000 == p.cob % 0x4000_0000))
                                || (sub == 2 && size == 1))
            && o.pdo == (if !o.accepted then p else if sub == 1 then p.(cob := value) else p.(kind := value % 0x100))
  {
  }

  function SizeOf(cmd: byte): nat {
    if cmd == 0x23 then 4 else if cmd == 0x2F then 1 else 0
  }

  datatype Served = Served(drive: Drive, accepted: bool)

  /** The drive decodes an SDO download addressed to it. */
  function ServeSdo(d: Drive, data: seq<byte>): Served
    requires |data| == 8 && Sound(d)
  {
    var index := Word16(data[1..3]);
    var value := Word32(data[4..8]);
    if index in d.pdos then
      var o := WriteComm(d.pdos[index], d.strict, data[3], SizeOf(data[0]), value);
      Served(d.(pdos := d.pdos[index := o.pdo]), o.accepted)
    else if index - 0x200 in d.pdos then
      var o := WriteMapping(d.pdos[index - 0x200], data[3], SizeOf(data[0]), value);
      Served(d.(pdos := d.pdos[index - 0x200 := o.pdo]), o.accepted)
    else Served(d, false)
  }

  /** One frame on the bus, as drive `node` sees it. */
  function Serve(node: byte, d: Drive, f: CanFrame): (s: Served)
    requires Sound(d)
    ensures Sound(s.drive) && s.drive.defaults == d.defaults && s.drive.strict == d.strict
  {
    if f.id == SDO_RX_ID_BASE + node as int && |f.data| == 8 then ServeSdo(d, f.data)
    else if f.id == NMT_ID && |f.data| == 2 && f.data[1] == node then
      if f.data[0] == NMT_RESET_COMMUNICATION then
        Served(d.(pdos := d.defaults, started := false), true)
      else if f.data[0] == NMT_START then Served(d.(started := true), true)
      else Served(d, true)
    else Served(d, true)
  }

  function ServeAll(node: byte, d: Drive, fs: seq<CanFrame>): (s: Served)
    requires Sound(d)
    ensures Sound(s.drive) && s.drive.defaults == d.defaults && s.drive.strict == d.strict
    decreases |fs|
  {
    if fs == [] then Served(d, true)
    else
      var first := Serve(node, d, fs[0]);
      var rest := ServeAll(node, first.drive, fs[1..]);
      Served(rest.drive, first.accepted && rest.accepted)
  }

  lemma {:induction false} ServeAppend(node: byte, d: Drive, a: seq<CanFrame>, b: seq<CanFrame>)
    requires Sound(d)
    ensures var s := ServeAll(node, d, a);
            var t := ServeAll(node, s.drive, b);
            ServeAll(node, d, a + b) == Served(t.drive, s.accepted && t.accepted)
    decreases |a|
  {
    hide Serve, Sound;
    if a == [] {
      assert a + b == b;
    } else {
      ServeAppend(node, Serve(node, d, a[0]).drive, a[1..], b);
      assert (a + b)[1..] == a[1..] + b;
    }
  }

  lemma ServeNone(node: byte, d: Drive)
    requires Sound(d)
    ensures ServeAll(node, d, []) == Served(d, true)
  {
  }

  lemma ServeOne(node: byte, d: Drive, f: CanFrame)
    requires Sound(d)
    ensures ServeAll(node, d, [f]) == Serve(node, d, f)
  {
    assert [f][1..] == [];
  }

  /* ---- what the writes do ---- */

  /** The drive reads back the index, sub-index and value that were sent. */
  lemma SdoDecodes(node: byte, cmd: byte, index: ushort, sub: byte, value: word)
    ensures var f := Sdo(node, cmd, index, sub, value);
            |f.data| == 8 && Word16(f.data[1..3]) == index && Word32(f.data[4..8]) == value
            && f.data[0] == cmd && f.data[3] == sub
  {
    var f := Sdo(node, cmd, index, sub, value);
    assert f.data[4..8] == Bytes32(value);
    Le32RoundTrip(value);
  }

  function At(d: Drive, comm: nat, p: Pdo): Drive { d.(pdos := d.pdos[comm := p]) }

  lemma CommWrite(node: byte, d: Drive, comm: ushort, cmd: byte, sub: byte, value: word)
    requires Sound(d) && comm in d.pdos
    ensures var o := WriteComm(d.pdos[comm], d.strict, sub, SizeOf(cmd), value);
            Serve(node, d, Sdo(node, cmd, comm, sub, value)) == Served(At(d, comm, o.pdo), o.accepted)
  {
    SdoDecodes(node, cmd, comm, sub, value);
  }

  lemma MappingWrite(node: byte, d: Drive, comm: ushort, cmd: byte, sub: byte, value: word)
    requires Sound(d) && comm in d.pdos && comm + 0x200 < 0x1_0000
    ensures var o := WriteMapping(d.pdos[comm], sub, SizeOf(cmd), value);
            Serve(node, d, Sdo(node, cmd, comm + 0x200, sub, value)) == Served(At(d, comm, o.pdo), o.accepted)
  {
    SdoDecodes(node, cmd, comm + 0x200, sub, value);
  }

  /** The first k entries are the listed objects. */
  function Filled(p: Pdo, objects: seq<word>, k: nat): Pdo
    requires k <= |objects| && k <= |p.entries|
  {
    p.(entries := objects[..k] + p.entries[k..])
  }

  lemma NextEntry(p: Pdo, objects: seq<word>, k: nat)
    requires |p.entries| == 64 && !Exists(p) && p.count == 0 && 1 <= k <= 64 && k <= |objects|
    ensures WriteMapping(Filled(p, objects, k - 1), k, SizeOf(0x23), objects[k - 1])
            == Outcome(Filled(p, objects, k), true)
  {
    assert Filled(p, objects, k - 1).entries[k - 1 := objects[k - 1]] == Filled(p, objects, k).entries;
  }

  /** The first entry writes of a list, on a PDO taken out of service: one entry
      after the other up to the sixty-fourth. */
  lemma {:induction false} EntriesServed(node: byte, d: Drive, comm: ushort, objects: seq<word>, k: nat)
    requires Sound(d) && comm in d.pdos && comm + 0x200 < 0x1_0000
    requires !Exists(d.pdos[comm]) && d.pdos[comm].count == 0
    requires k <= |objects| && k <= 64
    ensures ServeAll(node, d, EntryWrites(node, comm + 0x200, objects)[..k])
            == Served(At(d, comm, Filled(d.pdos[comm], objects, k)), true)
    decreases k
  {
    hide Serve, ServeAll, WriteMapping, Sdo, SizeOf, Exists;
    var p := d.pdos[comm];
    var fs := EntryWrites(node, comm + 0x200, objects);
    if k == 0 {
      ServeNone(node, d);
      assert fs[..0] == [] && Filled(p, objects, 0) == p;
      assert d.pdos[comm := p] == d.pdos;
    } else {
      EntriesServed(node, d, comm, objects, k - 1);
      var e := At(d, comm, Filled(p, objects, k - 1));
      assert fs[..k] == fs[..k - 1] + [fs[k - 1]];
      ServeAppend(node, d, fs[..k - 1], [fs[k - 1]]);
      ServeOne(node, e, fs[k - 1]);
      MappingWrite(node, e, comm, 0x23, k, objects[k - 1]);
      NextEntry(p, objects, k);
      assert e.pdos[comm := Filled(p, objects, k)] == d.pdos[comm := Filled(p, objects, k)];
    }
  }

  /** A list longer than the drive has entries is refused at the sixty-fifth. */
  lemma EntriesRefused(node: byte, d: Drive, comm: ushort, objects: seq<word>)
    requires Sound(d) && comm in d.pdos && comm + 0x200 < 0x1_0000
    requires !Exists(d.pdos[comm]) && d.pdos[comm].count == 0
    requires |objects| > 64
    ensures !ServeAll(node, d, EntryWrites(node, comm + 0x200, objects)).accepted
  {
    var fs := EntryWrites(node, comm + 0x200, objects);
    EntriesServed(node, d, comm, objects, 64);
    var e := ServeAll(node, d, fs[..64]).drive;
    assert fs == fs[..64] + fs[64..];
    ServeAppend(node, d, fs[..64], fs[64..]);
    MappingWrite(node, e, comm, 0x23, 65, objects[64]);
  }

  /** A strict drive lets an existing PDO be taken out of service only under the
      CAN-ID it has. */
  predicate Yields(d: Drive, comm: nat, cob: nat)
    requires comm in d.pdos
  {
    !d.strict || !Exists(d.pdos[comm]) || d.pdos[comm].cob % 0x4000_0000 == cob % 0x4000_0000
  }

  /** Writes in a row: each meets the PDO the one before it left. */
  lemma InARow(node: byte, d: Drive, comm: nat, p: Pdo, q: Pdo, f: CanFrame, g: seq<CanFrame>, n: Pdo, ok: bool)
    requires Sound(d) && |p.entries| == 64 && |q.entries| == 64 && comm in d.pdos
    requires Serve(node, At(d, comm, p), f) == Served(At(d, comm, q), true)
    requires ServeAll(node, At(d, comm, q), g) == Served(At(d, comm, n), ok)
    ensures ServeAll(node, At(d, comm, p), [f] + g) == Served(At(d, comm, n), ok)
  {
    hide Serve;
    assert ([f] + g)[1..] == g;
  }

  lemma Opening(p: Pdo, strict: bool, cob: word)
    requires |p.entries| == 64 && cob < INVALID
    requires !strict || !Exists(p) || p.cob % 0x4000_0000 == cob % 0x4000_0000
    ensures var q := p.(cob := INVALID + cob);
            && WriteComm(p, strict, 1, SizeOf(0x23), INVALID + cob) == Outcome(q, true)
            && WriteComm(q, strict, 2, SizeOf(0x2F), 1) == Outcome(q.(kind := 1), true)
            && WriteMapping(q.(kind := 1), 0, SizeOf(0x2F), 0) == Outcome(q.(kind := 1, count := 0), true)
  {
  }

  /** After the three opening writes the PDO is out of service and empty. */
  lemma Opened(node: byte, d: Drive, comm: ushort, cob: word)
    requires Sound(d) && comm in d.pdos && comm + 0x200 < 0x1_0000
    requires cob < INVALID && Yields(d, comm, cob)
    ensures ServeAll(node, d, [Sdo(node, 0x23, comm, 1, INVALID + cob), Sdo(node, 0x2F, comm, 2, 1),
                               Sdo(node, 0x2F, comm + 0x200, 0, 0)])
            == Served(At(d, comm, Pdo(INVALID + cob, 1, 0, d.pdos[comm].entries)), true)
  {
    hide Sdo, Serve, WriteComm, WriteMapping, SizeOf;
    var p := d.pdos[comm];
    var p1 := p.(cob := INVALID + cob);
    var p2 := p1.(kind := 1);
    var p3 := p2.(count := 0);
    var f, g, h := Sdo(node, 0x23, comm, 1, INVALID + cob), Sdo(node, 0x2F, comm, 2, 1),
                   Sdo(node, 0x2F, comm + 0x200, 0, 0);
    Opening(p, d.strict, cob);
    assert d.pdos[comm := p] == d.pdos;
    Written(node, d, comm, p, 0x23, 1, INVALID + cob);
    Written(node, d, comm, p1, 0x2F, 2, 1);
    MapWritten(node, d, comm, p2, 0x2F, 0, 0);
    ServeOne(node, At(d, comm, p2), h);
    InARow(node, d, comm, p1, p2, g, [h], p3, true);
    InARow(node, d, comm, p, p1, f, [g] + [h], p3, true);
    assert [f] + ([g] + [h]) == [f, g, h];
  }

  lemma Written(node: byte, d: Drive, comm: ushort, p: Pdo, cmd: byte, sub: byte, value: word)
    requires Sound(d) && comm in d.pdos && |p.entries| == 64
    ensures var o := WriteComm(p, d.strict, sub, SizeOf(cmd), value);
            Serve(node, At(d, comm, p), Sdo(node, cmd, comm, sub, value))
            == Served(At(d, comm, o.pdo), o.accepted)
  {
    hide Sdo, Serve, WriteComm, SizeOf;
    CommWrite(node, At(d, comm, p), comm, cmd, sub, value);
    var o := WriteComm(p, d.strict, sub, SizeOf(cmd), value);
    assert d.pdos[comm := p][comm := o.pdo] == d.pdos[comm := o.pdo];
  }

  lemma MapWritten(node: byte, d: Drive, comm: ushort, p: Pdo, cmd: byte, sub: byte, value: word)
    requires Sound(d) && comm in d.pdos && |p.entries| == 64 && comm + 0x200 < 0x1_0000
    ensures var o := WriteMapping(p, sub, SizeOf(cmd), value);
            Serve(node, At(d, comm, p), Sdo(node, cmd, comm + 0x200, sub, value))
            == Served(At(d, comm, o.pdo), o.accepted)
  {
    hide Sdo, Serve, WriteMapping, SizeOf;
    MappingWrite(node, At(d, comm, p), comm, cmd, sub, value);
    var o := WriteMapping(p, sub, SizeOf(cmd), value);
    assert d.pdos[comm := p][comm := o.pdo] == d.pdos[comm := o.pdo];
  }

  lemma Closing(p: Pdo, strict: bool, n: nat, cob: word)
    requires |p.entries| == 64 && !Exists(p) && n <= 64 && cob < INVALID
    ensures WriteMapping(p, 0, SizeOf(0x2F), n) == Outcome(p.(count := n), true)
    ensures WriteComm(p.(count := n), strict, 1, SizeOf(0x23), cob) == Outcome(p.(count := n, cob := cob), true)
  {
  }

  /** The two closing writes set the count and put the PDO back into service. */
  lemma Closed(node: byte, d: Drive, comm: ushort, n: byte, cob: word)
    requires Sound(d) && comm in d.pdos && comm + 0x200 < 0x1_0000
    requires !Exists(d.pdos[comm]) && n <= 64 && cob < INVALID
    ensures ServeAll(node, d, [Sdo(node, 0x2F, comm + 0x200, 0, n), Sdo(node, 0x23, comm, 1, cob)])
            == Served(At(d, comm, d.pdos[comm].(count := n, cob := cob)), true)
  {
    hide Sdo, Serve, WriteComm, WriteMapping, SizeOf, Exists;
    var p := d.pdos[comm];
    var p1 := p.(count := n);
    var f, g := Sdo(node, 0x2F, comm + 0x200, 0, n), Sdo(node, 0x23, comm, 1, cob);
    Closing(p, d.strict, n, cob);
    assert d.pdos[comm := p] == d.pdos;
    MapWritten(node, d, comm, p, 0x2F, 0, n);
    Written(node, d, comm, p1, 0x23, 1, cob);
    ServeOne(node, At(d, comm, p1), g);
    InARow(node, d, comm, p, p1, f, [g], p1.(cob := cob), true);
    assert [f] + [g] == [f, g];
  }

  /* ---- one remap, and a whole configuration ---- */

  /** The PDO the caller asks for; entries past the count keep what they held. */
  function Wanted(p: Pdo, cob: word, objects: seq<word>): Pdo
    requires |objects| <= 64 == |p.entries|
  {
    Pdo(cob, 1, |objects|, objects + p.entries[|objects|..])
  }

  lemma InParts(node: byte, d: Drive, a: seq<CanFrame>, b: seq<CanFrame>, c: seq<CanFrame>, e: Drive, g: Drive, n: Drive)
    requires Sound(d) && Sound(e) && Sound(g)
    requires ServeAll(node, d, a) == Served(e, true)
    requires ServeAll(node, e, b) == Served(g, true) && ServeAll(node, g, c) == Served(n, true)
    ensures ServeAll(node, d, a + b + c) == Served(n, true)
  {
    hide ServeAll, Sound;
    ServeAppend(node, d, a + b, c);
    ServeAppend(node, d, a, b);
  }

  lemma RemapTaken(node: byte, d: Drive, comm: ushort, cob: nat, objects: seq<word>)
    requires Sound(d) && comm in d.pdos && comm + 0x200 < 0x1_0000 && cob + node as int < INVALID
    requires |objects| <= 64 && Yields(d, comm, cob + node as int)
    ensures ServeAll(node, d, Remap(node, comm, comm + 0x200, cob, objects))
            == Served(At(d, comm, Wanted(d.pdos[comm], cob + node as int, objects)), true)
  {
    hide Sdo, Serve, ServeAll, Yields;
    var id := cob + node as int;
    var opening := [Sdo(node, 0x23, comm, 1, INVALID + id), Sdo(node, 0x2F, comm, 2, 1),
                    Sdo(node, 0x2F, comm + 0x200, 0, 0)];
    var middle := EntryWrites(node, comm + 0x200, objects);
    assert middle[..|objects|] == middle;
    hide EntryWrites;
    var closing := [Sdo(node, 0x2F, comm + 0x200, 0, |objects| % 0x100), Sdo(node, 0x23, comm, 1, id)];
    var p := Pdo(INVALID + id, 1, 0, d.pdos[comm].entries);
    var e := At(d, comm, p);
    Opened(node, d, comm, id);
    EntriesServed(node, e, comm, objects, |objects|);
    var q := Filled(p, objects, |objects|);
    var g := At(d, comm, q);
    assert e.pdos[comm := q] == d.pdos[comm := q];
    Closed(node, g, comm, |objects|, id);
    var n := Wanted(d.pdos[comm], id, objects);
    assert objects[..|objects|] == objects;
    assert g.pdos[comm := n] == d.pdos[comm := n];
    InParts(node, d, opening, middle, closing, e, g, At(d, comm, n));
  }

  lemma RemapRefused(node: byte, d: Drive, comm: ushort, cob: nat, objects: seq<word>)
    requires Sound(d) && comm in d.pdos && comm + 0x200 < 0x1_0000 && cob + node as int < INVALID
    requires |objects| > 64 || !Yields(d, comm, cob + node as int)
    ensures !ServeAll(node, d, Remap(node, comm, comm + 0x200, cob, objects)).accepted
  {
    hide Sdo, Serve, EntryWrites, Sound;
    var id := cob + node as int;
    var opening := [Sdo(node, 0x23, comm, 1, INVALID + id), Sdo(node, 0x2F, comm, 2, 1),
                    Sdo(node, 0x2F, comm + 0x200, 0, 0)];
    var middle := EntryWrites(node, comm + 0x200, objects);
    var closing := [Sdo(node, 0x2F, comm + 0x200, 0, |objects| % 0x100), Sdo(node, 0x23, comm, 1, id)];
    ServeAppend(node, d, opening + middle, closing);
    ServeAppend(node, d, opening, middle);
    if Yields(d, comm, id) {
      Opened(node, d, comm, id);
      EntriesRefused(node, At(d, comm, Pdo(INVALID + id, 1, 0, d.pdos[comm].entries)), comm, objects);
    } else {
      CommWrite(node, d, comm, 0x23, 1, INVALID + id);
    }
  }

  /** Remapping succeeds exactly when the list fits and the drive yields the PDO,
      and then leaves exactly the mapping, count, COB-ID and synchronous type asked
      for, whatever the PDO held before, and no other PDO changed.  Since the drive
      refuses mapping writes to an existing PDO, none is made to one. */
  lemma RemapExact(node: byte, d: Drive, comm: ushort, cob: nat, objects: seq<word>)
    requires Sound(d) && comm in d.pdos && comm + 0x200 < 0x1_0000 && cob + node as int < INVALID
    ensures var s := ServeAll(node, d, Remap(node, comm, comm + 0x200, cob, objects));
            && (s.accepted <==> |objects| <= 64 && Yields(d, comm, cob + node as int))
            && (s.accepted ==> s.drive == At(d, comm, Wanted(d.pdos[comm], cob + node as int, objects)))
  {
    hide Remap, ServeAll, Yields;
    if |objects| <= 64 && Yields(d, comm, cob + node as int) {
      RemapTaken(node, d, comm, cob, objects);
    } else {
      RemapRefused(node, d, comm, cob, objects);
    }
  }

  /** A frame the drive looks at: an SDO request or a network command for it. */
  predicate Heard(node: byte, f: CanFrame) {
    f.id == SDO_RX_ID_BASE + node as int || (f.id == NMT_ID && |f.data| == 2 && f.data[1] == node)
  }

  function HeardOf(node: byte, bus: seq<CanFrame>): seq<CanFrame> {
    if bus == [] then []
    else (if Heard(node, bus[0]) then [bus[0]] else []) + HeardOf(node, bus[1..])
  }

  /** What a drive makes of a bus is what it makes of the frames it looks at. */
  lemma {:induction false} OnlyHeardMatters(node: byte, d: Drive, bus: seq<CanFrame>)
    requires Sound(d)
    ensures ServeAll(node, d, bus) == ServeAll(node, d, HeardOf(node, bus))
    decreases |bus|
  {
    if bus != [] {
      var s := Serve(node, d, bus[0]);
      OnlyHeardMatters(node, s.drive, bus[1..]);
      if Heard(node, bus[0]) {
        var rest := HeardOf(node, bus[1..]);
        assert ([bus[0]] + rest)[0] == bus[0] && ([bus[0]] + rest)[1..] == rest;
      } else {
        assert s == Served(d, true);
        assert [] + HeardOf(node, bus[1..]) == HeardOf(node, bus[1..]);
      }
    }
  }

  /** Remapping is as exact on a bus that carries any other frames between its writes,
      as long as the drive hears those writes in their order and nothing else. */
  lemma RemapOnABusyBus(node: byte, d: Drive, comm: ushort, cob: nat, objects: seq<word>, bus: seq<CanFrame>)
    requires Sound(d) && comm in d.pdos && comm + 0x200 < 0x1_0000 && cob + node as int < INVALID
    requires HeardOf(node, bus) == Remap(node, comm, comm + 0x200, cob, objects)
    ensures var s := ServeAll(node, d, bus);
            && (s.accepted <==> |objects| <= 64 && Yields(d, comm, cob + node as int))
            && (s.accepted ==> s.drive == At(d, comm, Wanted(d.pdos[comm], cob + node as int, objects)))
  {
    hide Remap, ServeAll, Yields, HeardOf;
    OnlyHeardMatters(node, d, bus);
    RemapExact(node, d, comm, cob, objects);
  }

  /** One call of setup_pdo_mapping. */
  datatype Mapping = Mapping(comm: ushort, cob: word, objects: seq<word>)

  /** What configure_node maps: control word and mode, target velocity, status word
      and mode, velocity and position, and the monitoring values. */
  const MAPPINGS: seq<Mapping> := [
    Mapping(0x1400, RPDO1_ID_BASE, [0x60400010, 0x60600008]),
    Mapping(0x1401, RPDO2_ID_BASE, [0x60FF0020]),
    Mapping(0x1800, TPDO1_ID_BASE, [0x60410010, 0x60610008]),
    Mapping(0x1801, TPDO2_ID_BASE, [0x606C0020, 0x60640020]),
    Mapping(0x1802, TPDO3_ID_BASE, [0x60790010, 0x60780010, 0x26010010, 0x26020010])]

  predicate Proper(m: Mapping) { m.comm + 0x200 < 0x1_0000 && m.cob + 0xFF < INVALID && |m.objects| <= 64 }

  predicate AllProper(table: seq<Mapping>) { forall m :: m in table ==> Proper(m) }

  predicate Distinct(table: seq<Mapping>) {
    forall i, j :: 0 <= i < j < |table| ==> table[i].comm != table[j].comm
  }

  function RemapAll(node: byte, table: seq<Mapping>): seq<CanFrame>
    requires AllProper(table)
  {
    if table == [] then []
    else
      var m := table[0];
      assert Proper(m);
      Remap(node, m.comm, m.comm + 0x200, m.cob, m.objects) + RemapAll(node, table[1..])
  }

  /** The drive has every PDO of the table and yields each of them. */
  predicate Ready(node: byte, d: Drive, table: seq<Mapping>) {
    forall i :: 0 <= i < |table| ==>
      table[i].comm in d.pdos && Yields(d, table[i].comm, table[i].cob + node as int)
  }

  /** This PDO is exactly as asked for. */
  ghost predicate AsWanted(node: byte, d: Drive, m: Mapping, n: Drive) {
    && Proper(m) && m.comm in d.pdos && m.comm in n.pdos && |d.pdos[m.comm].entries| == 64
    && n.pdos[m.comm] == Wanted(d.pdos[m.comm], m.cob + node as int, m.objects)
  }

  predicate InTable(c: nat, table: seq<Mapping>) { exists m :: m in table && m.comm == c }

  /** Every PDO of the table is as asked for, and every other as it was. */
  ghost predicate AllAsWanted(node: byte, d: Drive, table: seq<Mapping>, n: Drive) {
    && n.pdos.Keys == d.pdos.Keys
    && (forall m :: m in table ==> AsWanted(node, d, m, n))
    && (forall c :: c in d.pdos && !InTable(c, table) ==> n.pdos[c] == d.pdos[c])
  }

  /** The drive after one call, when it goes through. */
  function AfterOne(node: byte, d: Drive, m: Mapping): Drive
    requires Sound(d) && Proper(m) && m.comm in d.pdos
  {
    At(d, m.comm, Wanted(d.pdos[m.comm], m.cob + node as int, m.objects))
  }

  /** One remap does not disturb what the others find. */
  lemma OneRemap(node: byte, d: Drive, table: seq<Mapping>)
    requires Sound(d) && AllProper(table) && Distinct(table) && Ready(node, d, table) && table != []
    ensures Proper(table[0]) && Sound(AfterOne(node, d, table[0]))
    ensures AllProper(table[1..]) && Distinct(table[1..])
    ensures Ready(node, AfterOne(node, d, table[0]), table[1..])
  {
    assert Proper(table[0]);
    var e, rest := AfterOne(node, d, table[0]), table[1..];
    forall i | 0 <= i < |rest|
      ensures rest[i].comm in e.pdos && Yields(e, rest[i].comm, rest[i].cob + node as int)
    {
      assert rest[i] == table[i + 1] && table[i + 1].comm != table[0].comm;
    }
  }

  lemma AsWantedStep(node: byte, d: Drive, table: seq<Mapping>, n: Drive)
    requires Sound(d) && Distinct(table) && table != []
    requires Proper(table[0]) && table[0].comm in d.pdos
    requires AllAsWanted(node, AfterOne(node, d, table[0]), table[1..], n)
    ensures AllAsWanted(node, d, table, n)
  {
    hide Wanted;
    var first, rest := table[0], table[1..];
    var e := AfterOne(node, d, first);
    forall m | m in table
      ensures AsWanted(node, d, m, n)
    {
      if m in rest {
        assert AsWanted(node, e, m, n);
      } else {
        assert m == first && !InTable(first.comm, rest);
      }
    }
    forall c | c in d.pdos && !InTable(c, table)
      ensures n.pdos[c] == d.pdos[c]
    {
      assert first in table && c != first.comm;
      assert !InTable(c, rest);
    }
  }

  /** The first call goes through and the others run from where it led. */
  lemma FirstServed(node: byte, d: Drive, table: seq<Mapping>)
    requires Sound(d) && AllProper(table) && Ready(node, d, table) && table != []
    ensures Proper(table[0]) && Sound(AfterOne(node, d, table[0])) && AllProper(table[1..])
    ensures ServeAll(node, d, RemapAll(node, table))
            == ServeAll(node, AfterOne(node, d, table[0]), RemapAll(node, table[1..]))
    ensures AfterOne(node, d, table[0]).started == d.started
  {
    hide Serve, ServeAll, Remap, Yields, Wanted;
    var m := table[0];
    assert Proper(m);
    var one := Remap(node, m.comm, m.comm + 0x200, m.cob, m.objects);
    RemapTaken(node, d, m.comm, m.cob, m.objects);
    ServeAppend(node, d, one, RemapAll(node, table[1..]));
  }

  lemma {:induction false} RemapAllExact(node: byte, d: Drive, table: seq<Mapping>)
    requires Sound(d) && AllProper(table) && Distinct(table) && Ready(node, d, table)
    ensures var s := ServeAll(node, d, RemapAll(node, table));
            s.accepted && s.drive.started == d.started && AllAsWanted(node, d, table, s.drive)
    decreases |table|
  {
    if table == [] {
    } else {
      hide ServeAll, RemapAll, Sound, Yields, Ready, Proper, AllProper, Distinct, AllAsWanted;
      OneRemap(node, d, table);
      FirstServed(node, d, table);
      var e := AfterOne(node, d, table[0]);
      RemapAllExact(node, e, table[1..]);
      AsWantedStep(node, d, table, ServeAll(node, e, RemapAll(node, table[1..])).drive);
    }
  }

  /** What configure_node sends. */
  function Configuration(node: byte): seq<CanFrame> {
    assert AllProper(MAPPINGS);
    [CanFrame(NMT_ID, [NMT_RESET_COMMUNICATION, node])] +
    RemapAll(node, MAPPINGS) +
    [CanFrame(NMT_ID, [NMT_START, node])]
  }

  lemma MappingsDiffer()
    ensures AllProper(MAPPINGS) && Distinct(MAPPINGS)
  {
  }

  lemma ReadySame(node: byte, d: Drive, d': Drive, table: seq<Mapping>)
    requires Ready(node, d, table) && d.pdos == d'.pdos && d.strict == d'.strict
    ensures Ready(node, d', table)
  {
    forall i | 0 <= i < |table|
      ensures table[i].comm in d'.pdos && Yields(d', table[i].comm, table[i].cob + node as int)
    {
      assert table[i].comm in d.pdos;
    }
  }

  lemma OnlyPdosMatter(node: byte, d: Drive, d': Drive, table: seq<Mapping>, n: Drive, n': Drive)
    requires AllAsWanted(node, d, table, n) && d.pdos == d'.pdos && n.pdos == n'.pdos
    ensures AllAsWanted(node, d', table, n')
  {
    forall m | m in table
      ensures AsWanted(node, d', m, n')
    {
      assert AsWanted(node, d, m, n);
    }
  }

  /** A drive that comes out of a communication reset with the five PDOs, each under
      the CAN-ID of the predefined connection set, accepts the whole configuration:
      it ends started with exactly the mappings asked for. */
  lemma ConfigurationTakes(node: byte, d: Drive)
    requires Sound(d) && AllProper(MAPPINGS) && Ready(node, d.(pdos := d.defaults), MAPPINGS)
    ensures var s := ServeAll(node, d, Configuration(node));
            s.accepted && s.drive.started
            && AllAsWanted(node, d.(pdos := d.defaults), MAPPINGS, s.drive)
  {
    hide RemapAll, ServeAll, Ready, Yields, AllAsWanted;
    var reset, start := CanFrame(NMT_ID, [NMT_RESET_COMMUNICATION, node]), CanFrame(NMT_ID, [NMT_START, node]);
    var e := d.(pdos := d.defaults, started := false);
    MappingsDiffer();
    ReadySame(node, d.(pdos := d.defaults), e, MAPPINGS);
    RemapAllExact(node, e, MAPPINGS);
    ServeOne(node, d, reset);
    var n := ServeAll(node, e, RemapAll(node, MAPPINGS)).drive;
    ServeOne(node, n, start);
    ServeAppend(node, d, [reset] + RemapAll(node, MAPPINGS), [start]);
    ServeAppend(node, d, [reset], RemapAll(node, MAPPINGS));
    OnlyPdosMatter(node, e, d.(pdos := d.defaults), MAPPINGS, n, n.(started := true));
  }

  /** ... whatever else the bus carries meanwhile. */
  lemma ConfigurationOnABusyBus(node: byte, d: Drive, bus: seq<CanFrame>)
    requires Sound(d) && AllProper(MAPPINGS) && Ready(node, d.(pdos := d.defaults), MAPPINGS)
    requires HeardOf(node, bus) == Configuration(node)
    ensures var s := ServeAll(node, d, bus);
            s.accepted && s.drive.started
            && AllAsWanted(node, d.(pdos := d.defaults), MAPPINGS, s.drive)
  {
    hide Configuration, ServeAll, Ready, HeardOf, AllAsWanted, AllProper;
    OnlyHeardMatters(node, d, bus);
    ConfigurationTakes(node, d);
  }

  /** Frames for one drive leave every other drive as it was. */
  lemma {:induction false} OtherDrivesUntouched(node: byte, other: byte, d: Drive, table: seq<Mapping>)
    requires Sound(d) && other != node && AllProper(table)
    ensures ServeAll(other, d, RemapAll(node, table)) == Served(d, true)
    decreases |table|
  {
    if table != [] {
      var m := table[0];
      assert Proper(m);
      var one := Remap(node, m.comm, m.comm + 0x200, m.cob, m.objects);
      ElsewhereIgnored(other, d, one);
      OtherDrivesUntouched(node, other, d, table[1..]);
      ServeAppend(other, d, one, RemapAll(node, table[1..]));
    }
  }

  lemma {:induction false} ElsewhereIgnored(other: byte, d: Drive, fs: seq<CanFrame>)
    requires Sound(d)
    requires forall i :: 0 <= i < |fs| ==> fs[i].id != SDO_RX_ID_BASE + other as int && fs[i].id != NMT_ID
    ensures ServeAll(other, d, fs) == Served(d, true)
    decreases |fs|
  {
    if fs != [] {
      ElsewhereIgnored(other, d, fs[1..]);
    }
  }
}
