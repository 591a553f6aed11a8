/** The CiA 402 drives: configuring, resetting and enabling them while their status
    words, boot-ups and feedback losses arrive at any moment.

    Everything another thread can do between two accesses is an arbitrary script:
    before the k-th access or sleep, `env(k)` says how long it took and what arrived
    meanwhile.  A result for every script is a result for every interleaving of one
    caller with the receiving and the control threads.  The enable tasks that run side
    by side take their turns in an arbitrary order. */
module MotorControl {
  import opened Bytes
  import opened PdoMapping
  import opened EnableTasks
  import Bits
  import Path = VelocityPath

  const HEARTBEAT_ID_BASE: nat := 0x700
  const SYNC_ID: nat := 0x080
  const SUPPRESSION := 5000

  /** The decoder as written: the enabled bits win over the quick-stop bit. */
  function StateOf(status: nat): Cia402 {
    var ready, on, enabled := Bits.Bit(status, 0), Bits.Bit(status, 1), Bits.Bit(status, 2);
    if Bits.Bit(status, 3) then Fault
    else if Bits.Bit(status, 6) then SwitchOnDisabled
    else if !ready && !on && !enabled then NotReadyToSwitchOn
    else if ready && !on && !enabled then ReadyToSwitchOn
    else if ready && on && !enabled then SwitchedOn
    else if ready && on && enabled then OperationEnabled
    else if !Bits.Bit(status, 5) && enabled then QuickStopActive
    else NotReadyToSwitchOn
  }

  /** The low bits of a status word: ready, switched on, enabled, fault. */
  predicate LowBits(status: nat, ready: bool, on: bool, enabled: bool, fault: bool) {
    && Bits.Bit(status, 0) == ready && Bits.Bit(status, 1) == on
    && Bits.Bit(status, 2) == enabled && Bits.Bit(status, 3) == fault
  }

  /** The patterns CiA 402 gives the states, bit 5 being quick stop (low) and bit 6 switch
      on disabled. */
  predicate Shows(status: nat, state: Cia402) {
    var quick, disabled := !Bits.Bit(status, 5), Bits.Bit(status, 6);
    match state
    case NotReadyToSwitchOn => LowBits(status, false, false, false, false) && !disabled
    case SwitchOnDisabled => LowBits(status, false, false, false, false) && disabled
    case ReadyToSwitchOn => LowBits(status, true, false, false, false) && !quick && !disabled
    case SwitchedOn => LowBits(status, true, true, false, false) && !quick && !disabled
    case OperationEnabled => LowBits(status, true, true, true, false) && !quick && !disabled
    case QuickStopActive => LowBits(status, true, true, true, false) && quick && !disabled
    case Fault =>
      (LowBits(status, false, false, false, true) || LowBits(status, true, true, true, true)) && !disabled
  }

  /** The decoder agrees with the standard on every state but one: a drive in quick stop
      reads as in operation. */
  lemma DecoderAgrees(status: nat, state: Cia402)
    requires Shows(status, state)
    ensures StateOf(status) == if state == QuickStopActive then OperationEnabled else state
  {
  }

  /** On the words the standard gives no state: a fault wins, then switch on disabled, and
      of the rest quick stop is read exactly from an enabled bit that stands without one of
      the two below it, with the quick stop bit low. */
  lemma DecoderElsewhere(status: nat)
    ensures var ready, on, enabled := Bits.Bit(status, 0), Bits.Bit(status, 1), Bits.Bit(status, 2);
            && (Bits.Bit(status, 3) <==> StateOf(status) == Fault)
            && (Bits.Bit(status, 6) && !Bits.Bit(status, 3) <==> StateOf(status) == SwitchOnDisabled)
            && (!Bits.Bit(status, 3) && !Bits.Bit(status, 6) ==>
                  && (StateOf(status) == QuickStopActive <==> enabled && !(ready && on) && !Bits.Bit(status, 5))
                  && (StateOf(status) == OperationEnabled <==> ready && on && enabled)
                  && (StateOf(status) == SwitchedOn <==> ready && on && !enabled)
                  && (StateOf(status) == ReadyToSwitchOn <==> ready && !on && !enabled))
  {
  }

  /** What the controller keeps for each drive; velocity is the last reported one, in
      pulses per second. */
  datatype Node = Node(status: nat, needsReinit: bool, suppressUntil: int, target: real, velocity: int)

  datatype Arrival = Received(frame: CanFrame) | FeedbackLost(node: byte)

  datatype Moment = Moment(lag: nat, arrivals: seq<Arrival>)

  /** A configuration of a node began. */
  datatype Start = Start(node: byte, at: int)

  /* ---- what an arrival does ---- */

  function Requested(states: map<byte, Node>, now: int, node: byte): map<byte, Node> {
    if node !in states || now < states[node].suppressUntil then states
    else states[node := states[node].(needsReinit := true)]
  }

  function Code(id: nat): nat { id % 0x1_0000 - id % 0x80 }

  predicate BootUp(f: CanFrame) { Code(f.id) == HEARTBEAT_ID_BASE && |f.data| == 1 && f.data[0] == 0 }

  predicate VelocityReport(f: CanFrame) { Code(f.id) == TPDO2_ID_BASE && |f.data| >= 8 }

  predicate StatusReport(f: CanFrame) { Code(f.id) == TPDO1_ID_BASE && |f.data| >= 3 }

  function Absorb(states: map<byte, Node>, now: int, a: Arrival): map<byte, Node> {
    match a
    case FeedbackLost(node) => Requested(states, now, node)
    case Received(f) =>
      var node := f.id % 0x80;
      if node !in states then states
      else if BootUp(f) then Requested(states, now, node)
      else if StatusReport(f) then states[node := states[node].(status := Word16(f.data))]
      else if VelocityReport(f) then states[node := states[node].(velocity := Le32(f.data))]
      else states
  }

  function AbsorbAll(states: map<byte, Node>, now: int, arrivals: seq<Arrival>): map<byte, Node> {
    if arrivals == [] then states
    else Absorb(AbsorbAll(states, now, arrivals[..|arrivals| - 1]), now, arrivals[|arrivals| - 1])
  }

  /** Arrivals leave windows and speed commands alone, and a request is taken only
      outside the suppression window. */
  lemma {:induction false} AbsorbedNodes(states: map<byte, Node>, now: int, arrivals: seq<Arrival>)
    ensures var n := AbsorbAll(states, now, arrivals);
            && n.Keys == states.Keys
            && forall i :: i in states ==>
                 && n[i].suppressUntil == states[i].suppressUntil && n[i].target == states[i].target
                 && (states[i].needsReinit ==> n[i].needsReinit)
                 && (n[i].needsReinit && !states[i].needsReinit ==> states[i].suppressUntil <= now)
    decreases |arrivals|
  {
    if arrivals != [] {
      AbsorbedNodes(states, now, arrivals[..|arrivals| - 1]);
    }
  }

  /** This arrival asks for the node to be configured: its boot-up message, or the loss of
      its feedback. */
  predicate AsksFor(a: Arrival, node: byte) {
    a == FeedbackLost(node) || (node < 0x80 && a == Received(CanFrame(0x700 + node as int, [0])))
  }

  /** Outside the node's window the request counts, inside it does not, and no other node
      changes. */
  lemma RequestCounts(states: map<byte, Node>, now: int, a: Arrival, node: byte)
    requires AsksFor(a, node)
    ensures node in states && now >= states[node].suppressUntil ==>
              Absorb(states, now, a) == states[node := states[node].(needsReinit := true)]
    ensures node !in states || now < states[node].suppressUntil ==> Absorb(states, now, a) == states
  {
  }

  /** Among any arrivals outside its window, one such request is enough. */
  lemma {:induction false} RequestIsKept(states: map<byte, Node>, now: int, arrivals: seq<Arrival>, node: byte, k: nat)
    requires k < |arrivals| && AsksFor(arrivals[k], node)
    requires node in states && now >= states[node].suppressUntil
    ensures node in AbsorbAll(states, now, arrivals) && AbsorbAll(states, now, arrivals)[node].needsReinit
    decreases |arrivals|
  {
    hide AsksFor, Absorb;
    var before, last := arrivals[..|arrivals| - 1], |arrivals| - 1;
    AbsorbedNodes(states, now, before);
    if k < last {
      RequestIsKept(states, now, before, node, k);
      AbsorbedNodes(AbsorbAll(states, now, before), now, [arrivals[last]]);
      assert [arrivals[last]][..0] == [];
      assert AbsorbAll(AbsorbAll(states, now, before), now, []) == AbsorbAll(states, now, before);
    } else {
      RequestCounts(AbsorbAll(states, now, before), now, arrivals[last], node);
    }
  }

  /** In operation, with nothing pending. */
  predicate Healthy(states: map<byte, Node>, node: byte) {
    node in states && StateOf(states[node].status) == OperationEnabled && !states[node].needsReinit
  }

  /** This arrival does not say that the node left operation. */
  predicate Calm(a: Arrival, node: byte) {
    match a
    case FeedbackLost(n) => n != node
    case Received(f) =>
      f.id % 0x80 == node as int ==>
        !BootUp(f) && (StatusReport(f) ==> StateOf(Word16(f.data)) == OperationEnabled)
  }

  lemma {:induction false} CalmKeepsHealthy(states: map<byte, Node>, now: int, arrivals: seq<Arrival>, node: byte)
    requires Healthy(states, node) && forall a :: a in arrivals ==> Calm(a, node)
    ensures Healthy(AbsorbAll(states, now, arrivals), node)
    decreases |arrivals|
  {
    hide StateOf;
    if arrivals != [] {
      CalmKeepsHealthy(states, now, arrivals[..|arrivals| - 1], node);
      assert Calm(arrivals[|arrivals| - 1], node);
    }
  }

  /* ---- frames ---- */

  function VelocityFrame(node: byte, target: real): CanFrame {
    CanFrame(RPDO2_ID_BASE + node as int, Bytes32(Path.Pulses(target)))
  }

  function VelocityFrames(states: map<byte, Node>, ids: seq<byte>): seq<CanFrame>
    requires forall n :: n in ids ==> n in states
  {
    if ids == [] then []
    else
      VelocityFrames(states, ids[..|ids| - 1]) + [VelocityFrame(ids[|ids| - 1], states[ids[|ids| - 1]].target)]
  }

  lemma {:induction false} RemapSparesOthers(node: byte, other: byte, table: seq<Mapping>)
    requires AllProper(table) && other != node
    ensures Spared(other, RemapAll(node, table), 0)
    decreases |table|
  {
    if table != [] {
      assert Proper(table[0]);
      RemapSparesOthers(node, other, table[1..]);
    }
  }

  lemma ConfigurationSparesOthers(node: byte, other: byte)
    requires other != node
    ensures Spared(other, Configuration(node), 0)
  {
    RemapSparesOthers(node, other, MAPPINGS);
  }

  lemma FiveMappings(n: byte)
    ensures AllProper(MAPPINGS)
    ensures RemapAll(n, MAPPINGS)
            == Remap(n, 0x1400, 0x1600, RPDO1_ID_BASE, [0x60400010, 0x60600008])
               + Remap(n, 0x1401, 0x1601, RPDO2_ID_BASE, [0x60FF0020])
               + Remap(n, 0x1800, 0x1A00, TPDO1_ID_BASE, [0x60410010, 0x60610008])
               + Remap(n, 0x1801, 0x1A01, TPDO2_ID_BASE, [0x606C0020, 0x60640020])
               + Remap(n, 0x1802, 0x1A02, TPDO3_ID_BASE, [0x60790010, 0x60780010, 0x26010010, 0x26020010])
  {
    hide Remap;
    var t := MAPPINGS;
    assert t[1..][1..] == t[2..] && t[2..][1..] == t[3..] && t[3..][1..] == t[4..] && t[4..][1..] == [];
    assert RemapAll(n, t[4..]) == Remap(n, 0x1802, 0x1A02, TPDO3_ID_BASE, t[4].objects);
    assert RemapAll(n, t[3..]) == Remap(n, 0x1801, 0x1A01, TPDO2_ID_BASE, t[3].objects) + RemapAll(n, t[4..]);
    assert RemapAll(n, t[2..]) == Remap(n, 0x1800, 0x1A00, TPDO1_ID_BASE, t[2].objects) + RemapAll(n, t[3..]);
    assert RemapAll(n, t[1..]) == Remap(n, 0x1401, 0x1601, RPDO2_ID_BASE, t[1].objects) + RemapAll(n, t[2..]);
  }

  lemma FaultResetSparesOthers(node: byte, other: byte)
    requires node != other
    ensures Spared(other, Twice(Rpdo1(node, FAULT_RESET, 0)), 0)
  {
  }

  lemma SentSpares(node: byte, wire: seq<CanFrame>, sent: seq<CanFrame>)
    requires Spared(node, sent, 0)
    ensures Spared(node, wire + sent, |wire|)
  {
    forall i | |wire| <= i < |wire + sent|
      ensures !Commands((wire + sent)[i], node)
    {
      assert (wire + sent)[i] == sent[i - |wire|];
    }
  }

  lemma EntriesUpTo(n: byte, map_: ushort, objects: seq<word>, k: nat)
    ensures var e := EntryWrites(n, map_, objects);
            && |e| == |objects|
            && (k < |objects| ==> e[..k + 1] == e[..k] + [Sdo(n, 0x23, map_, (k + 1) % 0x100, objects[k])])
  {
    hide Sdo;
  }

  ghost predicate Observed(node: byte, state: Cia402, seen: seq<Reading>, since: nat) {
    exists i :: since <= i < |seen| && seen[i] == Reading(node, state)
  }

  /** These readings are all of the node, and neither the target nor a fault. */
  predicate Unmet(node: byte, target: Cia402, seen: seq<Reading>, since: nat) {
    forall i :: since <= i < |seen| ==> seen[i].node == node && seen[i].state != target && seen[i].state != Fault
  }

  lemma NothingRead(node: byte, target: Cia402, seen: seq<Reading>)
    ensures Unmet(node, target, seen, |seen|)
  {
  }

  lemma StillUnmet(node: byte, target: Cia402, seen: seq<Reading>, state: Cia402, since: nat)
    requires Unmet(node, target, seen, since) && state != target && state != Fault
    ensures Unmet(node, target, seen + [Reading(node, state)], since)
  {
  }

  lemma UnmetBefore(node: byte, target: Cia402, seen: seq<Reading>, since: nat)
    requires Unmet(node, target, seen, since)
    ensures since < |seen| ==> Unmet(node, target, seen[..|seen| - 1], since)
    ensures since < |seen| ==> seen[|seen| - 1].node == node && seen[|seen| - 1].state != target
  {
  }

  /** What a wait reads is all of one node. */
  lemma AllOfOneNode(node: byte, target: Cia402, seen: seq<Reading>, since: nat)
    requires |seen| > since ==> seen[|seen| - 1].node == node && Unmet(node, target, seen[..|seen| - 1], since)
    ensures forall i :: since <= i < |seen| ==> seen[i].node == node
  {
    forall i | since <= i < |seen|
      ensures seen[i].node == node
    {
      if i < |seen| - 1 {
        assert seen[..|seen| - 1][i] == seen[i];
      }
    }
  }

  ghost predicate FaultReset(node: byte, wire: seq<CanFrame>, since: nat) {
    exists i :: since <= i < |wire| - 1 && wire[i] == wire[i + 1] == Rpdo1(node, FAULT_RESET, 0)
  }

  lemma ObservedLater(node: byte, state: Cia402, before: seq<Reading>, after: seq<Reading>, since: nat)
    requires Observed(node, state, before, since) && before <= after
    ensures Observed(node, state, after, since)
  {
    var i :| since <= i < |before| && before[i] == Reading(node, state);
    assert after[i] == before[i];
  }

  /** Every drive of the list was read in operation. */
  ghost predicate AllObserved(ids: seq<byte>, seen: seq<Reading>, since: nat) {
    forall n :: n in ids ==> Observed(n, OperationEnabled, seen, since)
  }

  lemma OneMoreObserved(ids: seq<byte>, k: nat, before: seq<Reading>, after: seq<Reading>, since: nat)
    requires k < |ids| && AllObserved(ids[..k], before, since)
    requires since <= |before| && before < after && after[|after| - 1] == Reading(ids[k], OperationEnabled)
    ensures AllObserved(ids[..k + 1], after, since)
  {
    forall n | n in ids[..k + 1]
      ensures Observed(n, OperationEnabled, after, since)
    {
      if n in ids[..k] {
        ObservedLater(n, OperationEnabled, before, after, since);
      }
    }
  }

  /** Read in operation, or fault-reset. */
  ghost predicate Attended(node: byte, seen: seq<Reading>, since: nat, wire: seq<CanFrame>, from: nat) {
    Observed(node, OperationEnabled, seen, since) || FaultReset(node, wire, from)
  }

  /** Read in operation, or told to get ready. */
  ghost predicate Pushed(node: byte, seen: seq<Reading>, since: nat, wire: seq<CanFrame>, from: nat) {
    || Observed(node, OperationEnabled, seen, since)
    || exists i :: from <= i < |wire| && wire[i] == Rpdo1(node, SHUTDOWN, VELOCITY_MODE)
  }

  lemma PushedLater(node: byte, before: seq<Reading>, after: seq<Reading>, since: nat, earlier: nat,
                    sent: seq<CanFrame>, wire: seq<CanFrame>, from: nat, base: nat)
    requires before <= after && sent <= wire && earlier <= since && base <= from
    requires Pushed(node, before, since, sent, from)
    ensures Pushed(node, after, earlier, wire, base)
  {
    hide Rpdo1;
    if Observed(node, OperationEnabled, before, since) {
      ObservedLater(node, OperationEnabled, before, after, since);
    } else {
      var i :| from <= i < |sent| && sent[i] == Rpdo1(node, SHUTDOWN, VELOCITY_MODE);
      assert wire[i] == sent[i];
    }
  }

  /** The latest reading of the node shows it in operation. */
  ghost predicate LastInOperation(node: byte, seen: seq<Reading>) {
    exists i :: 0 <= i < |seen| && seen[i] == Reading(node, OperationEnabled)
      && forall k :: i < k < |seen| ==> seen[k].node != node
  }

  /** Readings of one node settle its latest reading and leave those of the others. */
  lemma ReadingsOfOne(node: byte, other: byte, before: seq<Reading>, after: seq<Reading>)
    requires before < after && forall i :: |before| <= i < |after| ==> after[i].node == node
    ensures LastInOperation(node, after) <==> after[|after| - 1].state == OperationEnabled
    ensures other != node ==> (LastInOperation(other, after) <==> LastInOperation(other, before))
  {
    if other != node {
      if LastInOperation(other, before) {
        var i :| 0 <= i < |before| && before[i] == Reading(other, OperationEnabled)
                 && forall k :: i < k < |before| ==> before[k].node != other;
        assert after[i] == before[i];
        assert forall k :: i < k < |before| ==> after[k] == before[k];
      }
      if LastInOperation(other, after) {
        var i :| 0 <= i < |after| && after[i] == Reading(other, OperationEnabled)
                 && forall k :: i < k < |after| ==> after[k].node != other;
        assert i < |before| && before[i] == after[i];
        assert forall k :: i < k < |before| ==> before[k] == after[k];
      }
    }
  }

  /** The readings of the next of distinct drives decide whether all so far are in
      operation. */
  lemma ConfirmedSoFar(ids: seq<byte>, i: nat, before: seq<Reading>, after: seq<Reading>, all: bool, one: bool)
    requires DistinctIds(ids) && i < |ids| && before < after
    requires forall k :: |before| <= k < |after| ==> after[k].node == ids[i]
    requires one == (after[|after| - 1].state == OperationEnabled)
    requires all <==> forall j :: 0 <= j < i ==> LastInOperation(ids[j], before)
    ensures all && one <==> forall j :: 0 <= j <= i ==> LastInOperation(ids[j], after)
  {
    hide LastInOperation;
    forall j | 0 <= j <= i
      ensures LastInOperation(ids[j], after) <==> if j == i then one else LastInOperation(ids[j], before)
    {
      ReadingsOfOne(ids[i], ids[j], before, after);
    }
  }

  lemma AttendedLater(node: byte, before: seq<Reading>, after: seq<Reading>, since: nat,
                      sent: seq<CanFrame>, wire: seq<CanFrame>, from: nat)
    requires before <= after && sent <= wire && Attended(node, before, since, sent, from)
    ensures Attended(node, after, since, wire, from)
  {
    hide Rpdo1;
    if Observed(node, OperationEnabled, before, since) {
      ObservedLater(node, OperationEnabled, before, after, since);
    } else {
      var i :| from <= i < |sent| - 1 && sent[i] == sent[i + 1] == Rpdo1(node, FAULT_RESET, 0);
      assert wire[i] == wire[i + 1] == Rpdo1(node, FAULT_RESET, 0);
    }
  }

  lemma AttendedSince(node: byte, seen: seq<Reading>, since: nat, wire: seq<CanFrame>, from: nat, earlier: nat)
    requires Attended(node, seen, since, wire, from) && earlier <= from
    ensures Attended(node, seen, since, wire, earlier)
  {
    hide Rpdo1;
  }

  lemma AllObservedSince(ids: seq<byte>, seen: seq<Reading>, since: nat, earlier: nat)
    requires AllObserved(ids, seen, since) && earlier <= since
    ensures AllObserved(ids, seen, earlier)
  {
    forall n | n in ids
      ensures Observed(n, OperationEnabled, seen, earlier)
    {
      assert Observed(n, OperationEnabled, seen, since);
    }
  }

  lemma NowAttended(node: byte, before: seq<Reading>, after: seq<Reading>, since: nat,
                    sent: seq<CanFrame>, wire: seq<CanFrame>, from: nat)
    requires before < after && since <= |before| && from <= |sent|
    requires after[|after| - 1] == Reading(node, OperationEnabled) || wire == sent + Twice(Rpdo1(node, FAULT_RESET, 0))
    ensures Attended(node, after, since, wire, from)
  {
    hide Rpdo1;
    if wire == sent + Twice(Rpdo1(node, FAULT_RESET, 0)) {
      assert wire[|sent|] == wire[|sent| + 1] == Rpdo1(node, FAULT_RESET, 0);
    }
  }

  lemma OnTop(node: byte, sent: seq<CanFrame>, fs: seq<CanFrame>, read: seq<Reading>, rs: seq<Reading>)
    ensures Reading(node, OperationEnabled) in rs ==> Observed(node, OperationEnabled, read + rs, |read|)
    ensures Reading(node, OperationEnabled) in rs || Rpdo1(node, SHUTDOWN, VELOCITY_MODE) in fs ==>
              Pushed(node, read + rs, |read|, sent + fs, |sent|)
  {
    hide Rpdo1;
    if Reading(node, OperationEnabled) in rs {
      var k :| 0 <= k < |rs| && rs[k] == Reading(node, OperationEnabled);
      assert (read + rs)[|read| + k] == rs[k];
    }
    if Rpdo1(node, SHUTDOWN, VELOCITY_MODE) in fs {
      var k :| 0 <= k < |fs| && fs[k] == Rpdo1(node, SHUTDOWN, VELOCITY_MODE);
      assert (sent + fs)[|sent| + k] == fs[k];
    }
  }

  lemma Regroup<T>(a: seq<T>, b: seq<T>, c: seq<T>)
    ensures a + b + c == a + (b + c)
  {
  }

  lemma RecordOf(i: nat, out: seq<Event>)
    requires |out| <= 1 && Entries(i, out) == if out == [] then [] else [Entry(i, out[0])]
    ensures WireOf(Entries(i, out)) == if out != [] && out[0].Sent? then [out[0].frame] else []
    ensures SeenOf(Entries(i, out)) == if out != [] && out[0].Looked? then [out[0].reading] else []
  {
    if out != [] {
      Appended([], Entry(i, out[0]), i);
      assert [] + [Entry(i, out[0])] == [Entry(i, out[0])];
    }
  }

  lemma NothingYet(ids: seq<byte>, start: int)
    ensures Turns(ids, []) && AllAwake(ids, start, []) && Tasks(ids, start, []) == Starting(ids, start)
    ensures WireOf(Log(ids, start, [])) == [] && SeenOf(Log(ids, start, [])) == []
    ensures forall n :: InOperationThroughout(n, [])
  {
  }

  lemma StillInOperation(n: byte, log: seq<Entry>, i: nat, t: Task, state: Cia402)
    requires InOperationThroughout(n, SeenOf(log))
    requires t.node == n ==> state == OperationEnabled
    ensures InOperationThroughout(n, SeenOf(log + Entries(i, Output(t, state))))
  {
    hide Output, SeenOf;
    OutputIsTagged(t, state);
    AtMostOneEntry(i, t, state);
    var out := Output(t, state);
    if out == [] {
      assert log + [] == log;
    } else {
      Appended(log, Entry(i, out[0]), i);
      assert out[0] in out;
    }
  }

  ghost predicate Restarted(node: byte, starts: seq<Start>, since: nat) {
    exists i :: since <= i < |starts| && starts[i].node == node
  }

  /** A node's configurations start at least the suppression time apart. */
  ghost predicate Spaced(starts: seq<Start>) {
    forall i, j :: 0 <= i < j < |starts| && starts[i].node == starts[j].node ==>
      starts[i].at + SUPPRESSION <= starts[j].at
  }

  class MotorController {
    const nodeIds: seq<byte>
    const env: nat -> Moment
    var states: map<byte, Node>
    var wire: seq<CanFrame>
    var now: int
    var step: nat
    ghost var starts: seq<Start>
    ghost var seen: seq<Reading>

    /** Every configuration of a node so far lies behind its suppression window's
        opening, no request is pending inside the window, and the starts are spaced. */
    ghost predicate Valid()
      reads this
    {
      && (forall n :: n in nodeIds ==> n in states)
      && (forall n :: n in states && states[n].needsReinit ==> states[n].suppressUntil <= now)
      && (forall i :: 0 <= i < |starts| ==>
            && starts[i].at <= now && starts[i].node in states
            && starts[i].at + SUPPRESSION <= states[starts[i].node].suppressUntil)
      && (DistinctIds(nodeIds) ==> Spaced(starts))
    }

    /** Nothing keeps this node from being configured now. */
    ghost predicate Due(n: byte)
      reads this
    {
      forall i :: 0 <= i < |starts| && starts[i].node == n ==> starts[i].at + SUPPRESSION <= now
    }

    /** The node is in operation and nothing to come before access `until` says
        otherwise. */
    ghost predicate Undisturbed(n: byte, until: nat)
      reads this
    {
      && Healthy(states, n)
      && forall k: nat, a :: step <= k < until && a in env(k).arrivals ==> Calm(a, n)
    }

    ghost predicate AllUndisturbed(until: nat)
      reads this
    {
      forall n :: n in nodeIds ==> Undisturbed(n, until)
    }

    /** Time and the script only move on, the nodes stay the same, and a node that is
        undisturbed beyond this call stays so. */
    twostate predicate MovedOn()
      reads this
    {
      && old(step) <= step && old(now) <= now && old(states).Keys == states.Keys
      && (forall m :: m in states && old(states)[m].needsReinit ==> states[m].needsReinit)
      && (forall m, l: nat :: old(Undisturbed(m, l)) && step <= l ==> Undisturbed(m, l))
    }

    method RequestReinit(n: byte)
      requires Valid()
      modifies this`states
      ensures Valid() && states == Requested(old(states), now, n)
    {
      if n in states && now >= states[n].suppressUntil {
        states := states[n := states[n].(needsReinit := true)];
      }
    }

    method CanCallback(f: CanFrame)
      requires Valid()
      modifies this`states
      ensures Valid() && states == Absorb(old(states), now, Received(f))
    {
      var n: byte := f.id % 0x80;
      if n !in states {
        return;
      }
      if Code(f.id) == HEARTBEAT_ID_BASE {
        if |f.data| == 1 && f.data[0] == 0 {
          RequestReinit(n);
        }
        return;
      }
      if Code(f.id) == TPDO1_ID_BASE && |f.data| >= 3 {
        states := states[n := states[n].(status := Word16(f.data))];
      } else if Code(f.id) == TPDO2_ID_BASE && |f.data| >= 8 {
        states := states[n := states[n].(velocity := Le32(f.data))];
      }
    }

    /** Time passes, at least `ms`, and what the script says arrives. */
    method Tick(ms: nat)
      requires Valid()
      modifies this`states, this`now, this`step
      ensures Valid() && step == old(step) + 1 && now >= old(now) + ms
      ensures states == AbsorbAll(old(states), now, env(old(step)).arrivals)
      ensures MovedOn()
    {
      var m := env(step);
      now := now + ms + m.lag;
      for k := 0 to |m.arrivals|
        modifies this`states
        invariant Valid() && states == AbsorbAll(old(states), now, m.arrivals[..k])
      {
        assert m.arrivals[..k + 1][..k] == m.arrivals[..k];
        match m.arrivals[k]
        case FeedbackLost(n) => RequestReinit(n);
        case Received(f) => CanCallback(f);
      }
      assert m.arrivals[..|m.arrivals|] == m.arrivals;
      AbsorbedNodes(old(states), now, m.arrivals);
      forall n, l: nat | old(Undisturbed(n, l)) && old(step) < l
        ensures Healthy(states, n)
      {
        CalmKeepsHealthy(old(states), now, m.arrivals, n);
      }
      step := step + 1;
    }

    ghost method Note(r: Reading)
      requires Valid()
      modifies this`seen
      ensures Valid() && MovedOn() && seen == old(seen) + [r]
    {
      seen := seen + [r];
    }

    /** One look at a node's status word. */
    method Read(n: byte) returns (state: Cia402)
      requires Valid() && n in states
      modifies this`states, this`now, this`step, this`seen
      ensures Valid() && MovedOn() && seen == old(seen) + [Reading(n, state)]
      ensures forall l: nat :: old(Undisturbed(n, l)) && step <= l ==> state == OperationEnabled
    {
      Tick(0);
      state := StateOf(states[n].status);
      Note(Reading(n, state));
    }

    method IsOperationEnabled(n: byte) returns (enabled: bool)
      requires Valid()
      modifies this`states, this`now, this`step, this`seen
      ensures Valid() && MovedOn()
      ensures n !in old(states) ==> !enabled && seen == old(seen)
      ensures n in old(states) ==> |seen| == |old(seen)| + 1 && old(seen) < seen && seen[|old(seen)|].node == n
      ensures n in old(states) ==> (enabled <==> seen[|old(seen)|].state == OperationEnabled)
      ensures forall l: nat :: old(Undisturbed(n, l)) && step <= l ==> enabled
    {
      if n !in states {
        return false;
      }
      var state := Read(n);
      enabled := state == OperationEnabled;
    }

    lemma KnownWhenUndisturbed(n: byte)
      ensures forall l: nat :: Undisturbed(n, l) ==> n in states
    {
    }

    /** Polls until the node shows the target, shows a fault, or time is up.  True
        exactly when the last reading is the target; no earlier reading is the target
        or a fault; and there is at most one reading per 10 ms of the timeout. */
    method WaitForState(n: byte, target: Cia402, timeout: nat) returns (reached: bool)
      requires Valid()
      modifies this`states, this`now, this`step, this`seen
      ensures Valid() && MovedOn() && old(seen) <= seen
      ensures |seen| > |old(seen)| ==> seen[|seen| - 1].node == n && Unmet(n, target, seen[..|seen| - 1], |old(seen)|)
      ensures reached <==> |seen| > |old(seen)| && seen[|seen| - 1].state == target
      ensures !reached ==> now - old(now) >= timeout
                           || (|seen| > |old(seen)| && seen[|seen| - 1].state == Fault)
      ensures |seen| > |old(seen)| ==> 10 * (|seen| - |old(seen)| - 1) < timeout
      ensures n in old(states) && timeout > 0 ==> |seen| > |old(seen)|
      ensures forall l: nat :: old(Undisturbed(n, l)) && step <= l && target == OperationEnabled && timeout > 0 ==>
                reached
    {
      hide Valid, Undisturbed, Unmet;
      KnownWhenUndisturbed(n);
      NothingRead(n, target, seen);
      var start := now;
      while now - start < timeout
        invariant Valid() && MovedOn() && old(seen) <= seen
        invariant Unmet(n, target, seen, |old(seen)|)
        invariant 10 * (|seen| - |old(seen)|) <= now - start
        invariant n in states && now > start ==> |seen| > |old(seen)|
        invariant |seen| > |old(seen)| ==> 10 * (|seen| - |old(seen)| - 1) < timeout
        invariant forall l: nat :: old(Undisturbed(n, l)) && step <= l && target == OperationEnabled ==>
                    now == start && n in states && Undisturbed(n, l)
        decreases timeout - (now - start)
      {
        if n in states {
          ghost var before := seen;
          var state := Read(n);
          assert seen[..|seen| - 1] == before;
          if state == target {
            return true;
          }
          if state == Fault {
            return false;
          }
          StillUnmet(n, target, before, state, |old(seen)|);
        }
        Tick(10);
      }
      reached := false;
      UnmetBefore(n, target, seen, |old(seen)|);
    }

    method Write(f: CanFrame)
      requires Valid()
      modifies this`wire
      ensures Valid() && MovedOn() && wire == old(wire) + [f]
    {
      wire := wire + [f];
    }

    /* ---- configuring ---- */

    method WriteSdo(n: byte, cmd: byte, index: ushort, sub: byte, value: word)
      requires Valid()
      modifies this`wire, this`states, this`now, this`step
      ensures Valid() && MovedOn() && wire == old(wire) + [Sdo(n, cmd, index, sub, value)]
      ensures now - old(now) >= 20
    {
      Write(Sdo(n, cmd, index, sub, value));
      Tick(20);
    }

    method SendEntry(n: byte, map_: ushort, k: nat, sub: byte, objects: seq<word>, ghost sent: seq<CanFrame>)
      requires Valid() && k < |objects| && sub == (k + 1) % 0x100
      requires |EntryWrites(n, map_, objects)| == |objects| && wire == sent + EntryWrites(n, map_, objects)[..k]
      modifies this`wire, this`states, this`now, this`step
      ensures Valid() && MovedOn() && wire == sent + EntryWrites(n, map_, objects)[..k + 1]
      ensures now - old(now) >= 20
    {
      hide Valid, Undisturbed, Sdo, EntryWrites;
      EntriesUpTo(n, map_, objects, k);
      Regroup(sent, EntryWrites(n, map_, objects)[..k], [Sdo(n, 0x23, map_, sub, objects[k])]);
      WriteSdo(n, 0x23, map_, sub, objects[k]);
    }

    method SendEntries(n: byte, map_: ushort, objects: seq<word>)
      requires Valid()
      modifies this`wire, this`states, this`now, this`step
      ensures Valid() && MovedOn() && wire == old(wire) + EntryWrites(n, map_, objects)
      ensures now - old(now) >= 20 * |objects|
    {
      hide Valid, Undisturbed, Sdo, EntryWrites;
      ghost var entries := EntryWrites(n, map_, objects);
      EntriesUpTo(n, map_, objects, 0);
      var sub: byte := 1;
      for k := 0 to |objects|
        invariant Valid() && MovedOn() && sub == (k + 1) % 0x100 && now - old(now) >= 20 * k
        invariant |entries| == |objects| && wire == old(wire) + entries[..k]
      {
        SendEntry(n, map_, k, sub, objects, old(wire));
        sub := (sub as int + 1) % 0x100;
      }
      assert entries[..|objects|] == entries;
    }

    method SetupPdoMapping(n: byte, comm: ushort, map_: ushort, cob: nat, objects: seq<word>)
      requires Valid() && cob + n as int < INVALID
      modifies this`wire, this`states, this`now, this`step
      ensures Valid() && MovedOn() && wire == old(wire) + Remap(n, comm, map_, cob, objects)
      ensures now - old(now) >= 20 * (5 + |objects|)
    {
      hide Valid, Undisturbed, Sdo, EntryWrites;
      var id := cob + n as int;
      WriteSdo(n, 0x23, comm, 1, INVALID + id);
      WriteSdo(n, 0x2F, comm, 2, 1);
      WriteSdo(n, 0x2F, map_, 0, 0);
      SendEntries(n, map_, objects);
      WriteSdo(n, 0x2F, map_, 0, |objects| % 0x100);
      WriteSdo(n, 0x23, comm, 1, id);
    }

    /** The locked section at the start: the window opens, the pending request, the
        cached status and the speed command are gone. */
    method BeginConfiguration(n: byte)
      requires Valid() && n in states && (DistinctIds(nodeIds) ==> Due(n))
      modifies this`states, this`starts
      ensures Valid() && starts == old(starts) + [Start(n, now)]
      ensures states == old(states)[n := Node(0, false, now + SUPPRESSION, 0.0, old(states)[n].velocity)]
    {
      starts := starts + [Start(n, now)];
      states := states[n := Node(0, false, now + SUPPRESSION, 0.0, states[n].velocity)];
    }

    method SendMappings(n: byte)
      requires Valid()
      modifies this`wire, this`states, this`now, this`step
      ensures Valid() && MovedOn() && wire == old(wire) + RemapAll(n, MAPPINGS)
      ensures now - old(now) >= 720
    {
      hide Valid, Undisturbed, Remap;
      SetupPdoMapping(n, 0x1400, 0x1600, RPDO1_ID_BASE, [0x60400010, 0x60600008]);
      SetupPdoMapping(n, 0x1401, 0x1601, RPDO2_ID_BASE, [0x60FF0020]);
      SetupPdoMapping(n, 0x1800, 0x1A00, TPDO1_ID_BASE, [0x60410010, 0x60610008]);
      SetupPdoMapping(n, 0x1801, 0x1A01, TPDO2_ID_BASE, [0x606C0020, 0x60640020]);
      SetupPdoMapping(n, 0x1802, 0x1A02, TPDO3_ID_BASE, [0x60790010, 0x60780010, 0x26010010, 0x26020010]);
      FiveMappings(n);
    }

    method SendConfiguration(n: byte)
      requires Valid()
      modifies this`wire, this`states, this`now, this`step
      ensures Valid() && MovedOn() && wire == old(wire) + Configuration(n)
      ensures now - old(now) >= 500 + 720 + 100
    {
      hide Valid, Undisturbed, RemapAll;
      Write(CanFrame(NMT_ID, [NMT_RESET_COMMUNICATION, n]));
      Tick(500);
      SendMappings(n);
      Write(CanFrame(NMT_ID, [NMT_START, n]));
      Tick(100);
    }

    method ConfigureNode(n: byte)
      requires Valid() && n in states && (DistinctIds(nodeIds) ==> Due(n))
      modifies this`wire, this`states, this`now, this`step, this`starts
      ensures Valid() && old(step) <= step && old(now) <= now && states.Keys == old(states).Keys
      ensures forall m :: m != n && m in states && old(states)[m].needsReinit ==> states[m].needsReinit
      ensures forall m, l: nat :: m != n && old(Undisturbed(m, l)) && step <= l ==> Undisturbed(m, l)
      ensures wire == old(wire) + Configuration(n) && now - old(now) >= 500 + 720 + 100
      ensures |starts| == |old(starts)| + 1 && starts[..|old(starts)|] == old(starts)
      ensures starts[|old(starts)|].node == n
    {
      Tick(0);
      BeginConfiguration(n);
      assert forall m, l: nat :: m != n && old(Undisturbed(m, l)) && step <= l ==> Undisturbed(m, l);
      hide Valid, Undisturbed, Configuration;
      SendConfiguration(n);
    }

    /** init: every node starts unknown and is configured once. */
    constructor (ids: seq<byte>, script: nat -> Moment, start: nat)
      ensures Valid() && nodeIds == ids && env == script
      ensures |starts| == |ids| && forall i :: 0 <= i < |ids| ==> starts[i].node == ids[i]
    {
      nodeIds, env := ids, script;
      states := map n | n in ids :: Node(0, false, 0, 0.0, 0);
      wire, starts, seen, now, step := [], [], [], start, 0;
      new;
      for i := 0 to |ids|
        invariant Valid() && |starts| == i && forall j :: 0 <= j < i ==> starts[j].node == ids[j]
      {
        ConfigureNode(ids[i]);
      }
    }

    method ReinitPending() returns (pending: bool)
      requires Valid()
      ensures pending <==> exists n :: n in nodeIds && states[n].needsReinit
    {
      for i := 0 to |nodeIds|
        invariant forall j :: 0 <= j < i ==> !states[nodeIds[j]].needsReinit
      {
        if states[nodeIds[i]].needsReinit {
          return true;
        }
      }
      pending := false;
    }

    /* ---- speeds ---- */

    method SetTargetVelocity(n: byte, rpm: real)
      requires Valid()
      modifies this`states
      ensures Valid()
      ensures states == if n in old(states)
                        then old(states)[n := old(states)[n].(target := Path.Mirrored(n, rpm))]
                        else old(states)
    {
      if n in states {
        states := states[n := states[n].(target := Path.Mirrored(n, rpm))];
      }
    }

    /** One turn of the sync loop: every drive's speed in pulses, then the sync frame. */
    method SyncOnce()
      requires Valid()
      modifies this`wire
      ensures Valid()
      ensures wire == old(wire) + VelocityFrames(states, nodeIds) + [CanFrame(SYNC_ID, [])]
    {
      for i := 0 to |nodeIds|
        modifies this`wire
        invariant Valid() && wire == old(wire) + VelocityFrames(states, nodeIds[..i])
      {
        assert nodeIds[..i + 1][..i] == nodeIds[..i];
        Write(VelocityFrame(nodeIds[i], states[nodeIds[i]].target));
      }
      assert nodeIds[..|nodeIds|] == nodeIds;
      Write(CanFrame(SYNC_ID, []));
    }

    method GetFeedbackVelocity(n: byte) returns (rpm: real)
      ensures rpm == if n in states then Path.FeedbackRpm(n, states[n].velocity) else 0.0
    {
      rpm := if n in states then Path.FeedbackRpm(n, states[n].velocity) else 0.0;
    }

    /* ---- enabling ---- */

    method ChangeMotorState(n: byte, controlword: int, mode: byte, ms: nat)
      requires Valid()
      modifies this`wire, this`states, this`now, this`step
      ensures Valid() && MovedOn() && wire == old(wire) + [Rpdo1(n, controlword, mode)]
      ensures now - old(now) >= ms
    {
      Write(Rpdo1(n, controlword, mode));
      Tick(ms);
    }

    /** What this call sent: nothing to a drive that stayed in operation during it. */
    twostate predicate SparedHealthy()
      reads this
    {
      && old(wire) <= wire
      && forall m, l: nat :: old(Undisturbed(m, l)) && step <= l ==> Spared(m, wire, |old(wire)|)
    }

    /** The tasks after these turns, with what the turns sent and read. */
    ghost predicate Underway(tasks: seq<Task>, start: int, turns: seq<Turn>, sent: seq<CanFrame>, read: seq<Reading>)
      reads this
    {
      && Turns(nodeIds, turns) && AllAwake(nodeIds, start, turns) && tasks == Tasks(nodeIds, start, turns)
      && wire == sent + WireOf(Log(nodeIds, start, turns)) && seen == read + SeenOf(Log(nodeIds, start, turns))
    }

    /** One turn of a task: it sleeps as long as it must, and makes one access. */
    method TakeTurn(t: Task, i: nat) returns (next: Task, ghost turn: Turn)
      requires Valid() && t.node in states
      modifies this`wire, this`states, this`now, this`step, this`seen
      ensures Valid() && MovedOn()
      ensures turn.task == i && turn.now >= t.wake && next == Advance(t, turn.now, turn.state)
      ensures wire == old(wire) + WireOf(Entries(i, Output(t, turn.state)))
      ensures seen == old(seen) + SeenOf(Entries(i, Output(t, turn.state)))
      ensures forall l: nat :: old(Undisturbed(t.node, l)) && step <= l ==> turn.state == OperationEnabled
    {
      Tick(if t.wake > now then t.wake - now else 0);
      var state := StateOf(states[t.node].status);
      turn := Turn(i, now, state);
      next := Advance(t, now, state);
      assert forall l: nat :: old(Undisturbed(t.node, l)) && step <= l ==> state == OperationEnabled;
      hide Valid, Undisturbed, Advance, Output, StateOf, WireOf, SeenOf, Entries;
      Act(i, t, state);
    }

    /** The access of this turn, if it has one. */
    method Act(i: nat, t: Task, state: Cia402)
      requires Valid()
      modifies this`wire, this`seen
      ensures Valid() && MovedOn()
      ensures wire == old(wire) + WireOf(Entries(i, Output(t, state)))
      ensures seen == old(seen) + SeenOf(Entries(i, Output(t, state)))
    {
      hide Valid, Undisturbed, Output, Entries, WireOf, SeenOf;
      var out := Output(t, state);
      AtMostOneEntry(i, t, state);
      RecordOf(i, out);
      if out != [] {
        match out[0]
        case Sent(f) => Write(f);
        case Looked(r) => Note(r);
      }
    }

    /** One task's turn among the others'. */
    method OneTurn(tasks: seq<Task>, i: nat, ghost start: int, ghost turns: seq<Turn>,
                   ghost sent: seq<CanFrame>, ghost read: seq<Reading>)
      returns (next: seq<Task>, ghost more: seq<Turn>)
      requires Valid() && i < |nodeIds| && Underway(tasks, start, turns, sent, read)
      requires !tasks[i].stage.Over?
      modifies this`wire, this`states, this`now, this`step, this`seen
      ensures Valid() && MovedOn() && Underway(next, start, more, sent, read)
      ensures |next| == |tasks| && Rank(next[i]) < Rank(tasks[i])
      ensures forall j :: 0 <= j < |tasks| && j != i ==> next[j] == tasks[j]
      ensures forall n, l: nat :: old(Undisturbed(n, l)) && step <= l ==>
                InOperationThroughout(n, SeenOf(Log(nodeIds, start, turns))) ==>
                InOperationThroughout(n, SeenOf(Log(nodeIds, start, more)))
    {
      assert nodeIds[i] in states;
      var t := tasks[i];
      ghost var turn;
      t, turn := TakeTurn(tasks[i], i);
      next, more := tasks[i := t], turns + [turn];
      hide Valid, Undisturbed, Advance, Output, InOperationThroughout, Rank, Tasks, Log, AllAwake, WireOf, SeenOf,
           Entries, Turns;
      ghost var log := Log(nodeIds, start, turns);
      ghost var out := Entries(i, Output(tasks[i], turn.state));
      TurnTaken(nodeIds, start, turns, turn);
      Regroup(sent, WireOf(log), WireOf(out));
      Regroup(read, SeenOf(log), SeenOf(out));
      forall n, l: nat | old(Undisturbed(n, l)) && step <= l && InOperationThroughout(n, SeenOf(log))
        ensures InOperationThroughout(n, SeenOf(log + out))
      {
        StillInOperation(n, log, i, tasks[i], turn.state);
      }
    }

    /** The tasks of enable_motor, side by side: they take turns as the schedule says, and
        what is left of them in any order.  True exactly if every task is; true only if
        every listed drive was read in operation; every drive not in operation is told to
        get ready; no frame for a drive that stays in operation; and for distinct drives
        what the bus carries for each is exactly what its own task sent. */
    method EnableMotor(schedule: seq<nat>) returns (enabled: bool, ghost turns: seq<Turn>)
      requires Valid()
      modifies this`wire, this`states, this`now, this`step, this`seen
      ensures Valid() && MovedOn() && SparedHealthy() && old(seen) <= seen
      ensures Turns(nodeIds, turns) && Underway(Tasks(nodeIds, old(now), turns), old(now), turns, old(wire), old(seen))
      ensures forall i :: 0 <= i < |nodeIds| ==> Tasks(nodeIds, old(now), turns)[i].stage.Over?
      ensures enabled <==> forall i :: 0 <= i < |nodeIds| ==> Tasks(nodeIds, old(now), turns)[i].stage == Over(true)
      ensures DistinctIds(nodeIds) ==> forall i :: 0 <= i < |nodeIds| ==>
                CommandsTo(wire[|old(wire)|..], nodeIds[i]) == SentBy(Tasks(nodeIds, old(now), turns)[i])
      ensures enabled ==> AllObserved(nodeIds, seen, |old(seen)|)
      ensures forall l: nat :: old(AllUndisturbed(l)) && step <= l ==> enabled
      ensures forall n :: n in nodeIds ==> Pushed(n, seen, |old(seen)|, wire, |old(wire)|)
    {
      ghost var start, sent, read := now, wire, seen;
      var tasks := Starting(nodeIds, now);
      turns := [];
      hide Valid, Undisturbed, InOperationThroughout, Tasks, Log, AllAwake, Rank, DistinctIds, SentBy, CommandsTo,
           AllObserved, Pushed;
      NothingYet(nodeIds, start);
      assert wire + [] == wire && seen + [] == seen;
      for k := 0 to |schedule|
        invariant Valid() && MovedOn() && Underway(tasks, start, turns, sent, read)
        invariant forall n, l: nat :: old(Undisturbed(n, l)) && step <= l ==>
                    InOperationThroughout(n, SeenOf(Log(nodeIds, start, turns)))
      {
        var i := schedule[k];
        if i < |nodeIds| && !tasks[i].stage.Over? {
          tasks, turns := OneTurn(tasks, i, start, turns, sent, read);
        }
      }
      enabled := true;
      for i := 0 to |nodeIds|
        invariant Valid() && MovedOn() && Underway(tasks, start, turns, sent, read)
        invariant forall n, l: nat :: old(Undisturbed(n, l)) && step <= l ==>
                    InOperationThroughout(n, SeenOf(Log(nodeIds, start, turns)))
        invariant forall j :: 0 <= j < i ==> tasks[j].stage.Over?
        invariant enabled <==> forall j :: 0 <= j < i ==> tasks[j].stage.enabled
      {
        while !tasks[i].stage.Over?
          invariant Valid() && MovedOn() && Underway(tasks, start, turns, sent, read)
          invariant forall n, l: nat :: old(Undisturbed(n, l)) && step <= l ==>
                      InOperationThroughout(n, SeenOf(Log(nodeIds, start, turns)))
          invariant forall j :: 0 <= j < i ==> tasks[j].stage.Over?
          invariant enabled <==> forall j :: 0 <= j < i ==> tasks[j].stage.enabled
          decreases Rank(tasks[i])
        {
          tasks, turns := OneTurn(tasks, i, start, turns, sent, read);
        }
        enabled := enabled && tasks[i].stage.enabled;
      }
      AllTasksOver(old(now), turns, old(wire), old(seen));
      forall n, l: nat | old(Undisturbed(n, l)) && step <= l
        ensures Spared(n, wire, |old(wire)|)
        ensures n in nodeIds ==> forall i :: 0 <= i < |nodeIds| && nodeIds[i] == n ==> tasks[i].stage == Over(true)
      {
        HealthyIsSpared(nodeIds, start, turns, n);
        SentSpares(n, old(wire), WireOf(Log(nodeIds, start, turns)));
      }
      assert forall l: nat :: old(AllUndisturbed(l)) && step <= l ==>
        forall i :: 0 <= i < |nodeIds| ==> old(Undisturbed(nodeIds[i], l));
    }

    /** What follows once all tasks are over. */
    lemma AllTasksOver(start: int, turns: seq<Turn>, sent: seq<CanFrame>, read: seq<Reading>)
      requires Turns(nodeIds, turns) && Underway(Tasks(nodeIds, start, turns), start, turns, sent, read)
      requires forall i :: 0 <= i < |nodeIds| ==> Tasks(nodeIds, start, turns)[i].stage.Over?
      ensures (forall i :: 0 <= i < |nodeIds| ==> Tasks(nodeIds, start, turns)[i].stage.enabled) ==>
                AllObserved(nodeIds, seen, |read|)
      ensures forall n :: n in nodeIds ==> Pushed(n, seen, |read|, wire, |sent|)
      ensures DistinctIds(nodeIds) ==> forall i :: 0 <= i < |nodeIds| ==>
                CommandsTo(wire[|sent|..], nodeIds[i]) == SentBy(Tasks(nodeIds, start, turns)[i])
    {
      hide Tasks, Log, WireOf, SeenOf, Rpdo1, AllAwake, DistinctIds, SentBy, CommandsTo;
      assert wire[|sent|..] == WireOf(Log(nodeIds, start, turns));
      forall i | DistinctIds(nodeIds) && 0 <= i < |nodeIds|
        ensures CommandsTo(wire[|sent|..], nodeIds[i]) == SentBy(Tasks(nodeIds, start, turns)[i])
      {
        DriveSees(nodeIds, start, turns, i);
      }
      var log := Log(nodeIds, start, turns);
      forall i | 0 <= i < |nodeIds|
        ensures Tasks(nodeIds, start, turns)[i].stage.enabled ==> Observed(nodeIds[i], OperationEnabled, seen, |read|)
        ensures Pushed(nodeIds[i], seen, |read|, wire, |sent|)
      {
        OverMeans(nodeIds, start, turns, i);
        OnTop(nodeIds[i], sent, WireOf(log), read, SeenOf(log));
      }
    }

    /* ---- resetting ---- */

    /** A pending node's window is over, and it does not count as undisturbed. */
    lemma DueWhenAsked(n: byte)
      requires Valid() && n in states && states[n].needsReinit
      ensures Due(n) && forall l: nat :: !Undisturbed(n, l)
    {
    }

    method ReinitNode(n: byte)
      requires Valid() && n in states
      modifies this`wire, this`states, this`now, this`step, this`starts
      ensures Valid() && SparedHealthy() && old(starts) <= starts && old(states).Keys == states.Keys
      ensures old(step) <= step && old(now) <= now
      ensures old(states)[n].needsReinit ==> |starts| > |old(starts)| && starts[|starts| - 1].node == n
      ensures forall m :: m != n && m in states && old(states)[m].needsReinit ==> states[m].needsReinit
      ensures forall m, l: nat :: old(Undisturbed(m, l)) && step <= l ==> Undisturbed(m, l)
    {
      hide Valid, Undisturbed, Due, Configuration, Commands, RemapAll;
      Tick(0);
      if states[n].needsReinit {
        DueWhenAsked(n);
        ghost var before := wire;
        ConfigureNode(n);
        forall m | m != n
          ensures Spared(m, wire, |before|)
        {
          ConfigurationSparesOthers(n, m);
          SentSpares(m, before, Configuration(n));
        }
      }
    }

    /** Every node that asked for it is configured again. */
    method ReinitNodes()
      requires Valid()
      modifies this`wire, this`states, this`now, this`step, this`starts
      ensures Valid() && SparedHealthy() && old(starts) <= starts && old(states).Keys == states.Keys
      ensures old(step) <= step && old(now) <= now
      ensures forall m, l: nat :: old(Undisturbed(m, l)) && step <= l ==> Undisturbed(m, l)
      ensures forall n :: n in nodeIds && old(states)[n].needsReinit ==> Restarted(n, starts, |old(starts)|)
    {
      assert forall n :: n in nodeIds ==> n in states;
      hide Valid, Undisturbed, Commands;
      for i := 0 to |nodeIds|
        invariant Valid() && SparedHealthy() && old(starts) <= starts && old(states).Keys == states.Keys
        invariant old(step) <= step && old(now) <= now
        invariant forall m, l: nat :: old(Undisturbed(m, l)) && step <= l ==> Undisturbed(m, l)
        invariant forall n :: n in nodeIds && old(states)[n].needsReinit ==>
                    Restarted(n, starts, |old(starts)|) || (n in nodeIds[i..] && states[n].needsReinit)
      {
        var n := nodeIds[i];
        ghost var before := starts;
        ReinitNode(n);
      }
    }

    /** A fault reset, twice, unless the drive reads as in operation. */
    method FaultResetNode(n: byte)
      requires Valid() && n in states
      modifies this`wire, this`states, this`now, this`step, this`seen
      ensures Valid() && MovedOn() && SparedHealthy() && old(seen) < seen
      ensures || (seen[|seen| - 1] == Reading(n, OperationEnabled) && wire == old(wire))
              || (wire == old(wire) + Twice(Rpdo1(n, FAULT_RESET, 0)) && now - old(now) >= 100)
    {
      hide Valid, Undisturbed, Rpdo1;
      var enabled := IsOperationEnabled(n);
      if !enabled {
        ChangeMotorState(n, FAULT_RESET, 0, 100);
        ChangeMotorState(n, FAULT_RESET, 0, 0);
        assert wire == old(wire) + Twice(Rpdo1(n, FAULT_RESET, 0));
        forall m | m != n
          ensures Spared(m, wire, |old(wire)|)
        {
          FaultResetSparesOthers(n, m);
          SentSpares(m, old(wire), Twice(Rpdo1(n, FAULT_RESET, 0)));
        }
      }
    }

    method FaultResetNodes()
      requires Valid()
      modifies this`wire, this`states, this`now, this`step, this`seen
      ensures Valid() && MovedOn() && SparedHealthy() && old(seen) <= seen
      ensures forall n :: n in nodeIds ==> Attended(n, seen, |old(seen)|, wire, |old(wire)|)
    {
      assert forall n :: n in nodeIds ==> n in states;
      hide Valid, Undisturbed, Commands, Attended;
      for i := 0 to |nodeIds|
        invariant Valid() && MovedOn() && SparedHealthy() && old(seen) <= seen
        invariant forall n :: n in nodeIds[..i] ==> Attended(n, seen, |old(seen)|, wire, |old(wire)|)
      {
        var n := nodeIds[i];
        ghost var seenBefore, wireBefore := seen, wire;
        FaultResetNode(n);
        forall m | m in nodeIds[..i + 1]
          ensures Attended(m, seen, |old(seen)|, wire, |old(wire)|)
        {
          if m in nodeIds[..i] {
            AttendedLater(m, seenBefore, seen, |old(seen)|, wireBefore, wire, |old(wire)|);
          } else {
            NowAttended(m, seenBefore, seen, |old(seen)|, wireBefore, wire, |old(wire)|);
          }
        }
      }
      assert nodeIds[..|nodeIds|] == nodeIds;
    }

    /** Waits for every drive in turn: for distinct drives, true exactly when the latest
        reading of each shows it in operation. */
    method ConfirmAll() returns (all: bool)
      requires Valid()
      modifies this`states, this`now, this`step, this`seen
      ensures Valid() && MovedOn() && old(seen) <= seen
      ensures all ==> AllObserved(nodeIds, seen, |old(seen)|)
      ensures DistinctIds(nodeIds) ==> (all <==> forall n :: n in nodeIds ==> LastInOperation(n, seen))
      ensures forall l: nat :: old(AllUndisturbed(l)) && step <= l ==> all
    {
      assert forall n :: n in nodeIds ==> n in states;
      assert AllObserved(nodeIds[..0], seen, |old(seen)|);
      hide Valid, Undisturbed, AllObserved, LastInOperation, DistinctIds;
      all := true;
      for i := 0 to |nodeIds|
        invariant Valid() && MovedOn() && old(seen) <= seen
        invariant all ==> AllObserved(nodeIds[..i], seen, |old(seen)|)
        invariant DistinctIds(nodeIds) ==> (all <==> forall j :: 0 <= j < i ==> LastInOperation(nodeIds[j], seen))
        invariant forall l: nat :: old(AllUndisturbed(l)) && step <= l ==> all
      {
        ghost var before := seen;
        assert forall l: nat :: old(AllUndisturbed(l)) && step <= l ==> Undisturbed(nodeIds[i], l);
        var one := WaitForState(nodeIds[i], OperationEnabled, 2000);
        AllOfOneNode(nodeIds[i], OperationEnabled, seen, |before|);
        if DistinctIds(nodeIds) {
          ConfirmedSoFar(nodeIds, i, before, seen, all, one);
        }
        if one && all {
          assert seen[|seen| - 1].node == nodeIds[i];
          OneMoreObserved(nodeIds, i, before, seen, |old(seen)|);
        }
        all := all && one;
      }
      assert nodeIds[..|nodeIds|] == nodeIds;
    }

    /** reset_motor: true only if every listed drive was read in operation, and for
        distinct drives exactly when the latest reading of each says so; a drive that
        stays in operation with nothing pending gets no frame; every pending node is
        configured again; every drive not in operation is fault-reset and told to get
        ready. */
    method ResetMotor(schedule: seq<nat>) returns (recovered: bool)
      requires Valid()
      modifies this`wire, this`states, this`now, this`step, this`starts, this`seen
      ensures Valid() && SparedHealthy() && old(seen) <= seen && old(starts) <= starts
      ensures recovered ==> AllObserved(nodeIds, seen, |old(seen)|)
      ensures forall l: nat :: old(AllUndisturbed(l)) && step <= l ==> recovered
      ensures forall n :: n in nodeIds && old(states)[n].needsReinit ==> Restarted(n, starts, |old(starts)|)
      ensures forall n :: n in nodeIds ==> Attended(n, seen, |old(seen)|, wire, |old(wire)|)
      ensures forall n :: n in nodeIds ==> Pushed(n, seen, |old(seen)|, wire, |old(wire)|)
      ensures DistinctIds(nodeIds) ==> (recovered <==> forall n :: n in nodeIds ==> LastInOperation(n, seen))
    {
      hide Valid, Undisturbed, Commands, AllObserved, Attended, Pushed, LastInOperation, DistinctIds, Underway,
           CommandsTo, SentBy, Tasks, Turns;
      ReinitNodes();
      ghost var reinit := wire;
      FaultResetNodes();
      forall n | n in nodeIds
        ensures Attended(n, seen, |old(seen)|, wire, |old(wire)|)
      {
        AttendedSince(n, seen, |old(seen)|, wire, |reinit|, |old(wire)|);
      }
      ghost var seenReset, wireReset := seen, wire;
      var enabled;
      ghost var turns;
      enabled, turns := EnableMotor(schedule);
      ghost var since, seenEnabled := |seen|, seen;
      assert forall l: nat :: old(AllUndisturbed(l)) && step <= l ==> AllUndisturbed(l);
      recovered := ConfirmAll();
      if recovered {
        AllObservedSince(nodeIds, seen, since, |old(seen)|);
      }
      forall n | n in nodeIds
        ensures Attended(n, seen, |old(seen)|, wire, |old(wire)|)
      {
        AttendedLater(n, seenReset, seen, |old(seen)|, wireReset, wire, |old(wire)|);
      }
      forall n | n in nodeIds
        ensures Pushed(n, seen, |old(seen)|, wire, |old(wire)|)
      {
        PushedLater(n, seenEnabled, seen, |seenReset|, |old(seen)|, wire, wire, |wireReset|, |old(wire)|);
      }
    }
  }

  /** A drive that asks outside its window is configured by the next reset, whatever
      arrives and however long it takes until then. */
  method RecoverAfter(c: MotorController, a: Arrival, n: byte, waits: seq<nat>, schedule: seq<nat>)
    returns (pending: bool, recovered: bool)
    requires c.Valid() && n in c.nodeIds && AsksFor(a, n) && c.now >= c.states[n].suppressUntil
    modifies c
    ensures c.Valid() && pending && Restarted(n, c.starts, |old(c.starts)|)
  {
    assert n in c.states;
    RequestCounts(c.states, c.now, a, n);
    match a {
      case FeedbackLost(m) => c.RequestReinit(m);
      case Received(f) => c.CanCallback(f);
    }
    for k := 0 to |waits|
      invariant c.Valid() && n in c.states && c.states[n].needsReinit && c.starts == old(c.starts)
    {
      c.Tick(waits[k]);
    }
    pending := c.ReinitPending();
    recovered := c.ResetMotor(schedule);
  }

  /** What the node above asks of the controller between start and shutdown. */
  datatype Call = Idle(ms: nat) | Ask(node: byte) | Enable(schedule: seq<nat>) | Reset(schedule: seq<nat>)

  /** Re-initialisation cannot feed itself: whatever is called, and whatever arrives
      meanwhile, two configurations of one listed drive never start within five
      seconds of each other. */
  method Operate(ids: seq<byte>, script: nat -> Moment, start: nat, calls: seq<Call>)
    returns (c: MotorController)
    ensures fresh(c) && c.Valid() && c.nodeIds == ids
    ensures DistinctIds(ids) ==> Spaced(c.starts)
  {
    c := new MotorController(ids, script, start);
    for i := 0 to |calls|
      invariant c.Valid()
    {
      match calls[i] {
        case Idle(ms) => c.Tick(ms);
        case Ask(n) => c.RequestReinit(n);
        case Enable(schedule) =>
          var enabled;
          ghost var turns;
          enabled, turns := c.EnableMotor(schedule);
        case Reset(schedule) => var recovered := c.ResetMotor(schedule);
      }
    }
  }
}
