/** Bringing the CiA 402 drives into operation: one task per listed drive, all running
    side by side.

    A task is a machine of single accesses (a write, a look at the status word, a look
    at the clock), so that any interleaving of the tasks is a sequence of turns.  What a
    turn finds, the time and the drive's state, is arbitrary. */
module EnableTasks {
  import opened Bytes
  import opened PdoMapping

  const SHUTDOWN := 0x0006
  const SWITCH_ON := 0x0007
  const ENABLE_OPERATION := 0x000F
  const FAULT_RESET := 0x0080
  const VELOCITY_MODE: byte := 3

  datatype Cia402 =
    | NotReadyToSwitchOn
    | SwitchOnDisabled
    | ReadyToSwitchOn
    | SwitchedOn
    | OperationEnabled
    | QuickStopActive
    | Fault

  /** Somebody looked at a node's status word. */
  datatype Reading = Reading(node: byte, state: Cia402)

  /* ---- frames ---- */

  function Rpdo1(node: byte, controlword: int, mode: byte): CanFrame {
    CanFrame(RPDO1_ID_BASE + node as int, Bytes16(controlword) + [mode])
  }

  function SetVelocityMode(node: byte): CanFrame { Sdo(node, 0x2F, 0x6060, 0, VELOCITY_MODE as int) }

  /** A control word, an SDO or a network command for this node. */
  predicate Commands(f: CanFrame, node: byte) {
    || f.id == RPDO1_ID_BASE + node as int
    || f.id == SDO_RX_ID_BASE + node as int
    || (f.id == NMT_ID && |f.data| == 2 && f.data[1] == node)
  }

  /** None of the frames from position `since` on commands the node. */
  ghost predicate Spared(node: byte, wire: seq<CanFrame>, since: nat) {
    forall i :: since <= i < |wire| ==> !Commands(wire[i], node)
  }

  function Twice(f: CanFrame): seq<CanFrame> { [f, f] }

  function LadderFrames(node: byte, rungs: nat): seq<CanFrame> {
    (if rungs >= 1 then Twice(Rpdo1(node, SHUTDOWN, VELOCITY_MODE)) else []) +
    (if rungs >= 2 then Twice(Rpdo1(node, SWITCH_ON, VELOCITY_MODE)) else []) +
    (if rungs >= 3 then Twice(Rpdo1(node, ENABLE_OPERATION, VELOCITY_MODE)) else [])
  }

  /** What enabling one drive sends: the mode, a fault reset if it was in fault, and
      the ladder of control words as far as it got. */
  function EnableFrames(node: byte, faulted: bool, rungs: nat): seq<CanFrame> {
    [SetVelocityMode(node)] + (if faulted then [Rpdo1(node, FAULT_RESET, 0)] else []) + LadderFrames(node, rungs)
  }

  /* ---- one task ---- */

  type Rung = k: nat | 1 <= k <= 3 witness 1

  /** What the task does next.  On each rung it sends the control word twice, reads the
      clock, and then looks for the rung's state until the deadline. */
  datatype Stage =
    | Check
    | SetMode
    | LookForFault
    | ClearFault
    | First(rung: Rung)
    | Second(rung: Rung)
    | Begin(rung: Rung)
    | Poll(rung: Rung, deadline: int)
    | Look(rung: Rung, deadline: int)
    | Over(enabled: bool)

  /** It sleeps until `wake`. */
  datatype Task = Task(node: byte, stage: Stage, wake: int, faulted: bool, rungs: nat)

  datatype Event = Sent(frame: CanFrame) | Looked(reading: Reading)

  function ControlWord(k: Rung): int { if k == 1 then SHUTDOWN else if k == 2 then SWITCH_ON else ENABLE_OPERATION }

  function Target(k: Rung): Cia402 {
    if k == 1 then ReadyToSwitchOn else if k == 2 then SwitchedOn else OperationEnabled
  }

  function Fresh(node: byte, now: int): Task { Task(node, Check, now, false, 0) }

  function Advance(t: Task, now: int, state: Cia402): Task {
    match t.stage
    case Check => if state == OperationEnabled then t.(stage := Over(true)) else t.(stage := SetMode, wake := now)
    case SetMode => t.(stage := LookForFault, wake := now + 50)
    case LookForFault =>
      if state == Fault then t.(stage := ClearFault, wake := now, faulted := true)
      else t.(stage := First(1), wake := now + 100)
    case ClearFault => t.(stage := First(1), wake := now + 200)
    case First(k) => t.(stage := Second(k), wake := now + 100, rungs := k)
    case Second(k) => t.(stage := Begin(k), wake := now)
    case Begin(k) => t.(stage := Poll(k, now + 2000), wake := now)
    case Poll(k, deadline) =>
      if now < deadline then t.(stage := Look(k, deadline), wake := now) else t.(stage := Over(false))
    case Look(k, deadline) =>
      if state == Target(k) then
        if k == 3 then t.(stage := Over(true)) else t.(stage := First(k + 1), wake := now + 100)
      else if state == Fault then t.(stage := Over(false))
      else t.(stage := Poll(k, deadline), wake := now + 10)
    case Over(_) => t
  }

  function Output(t: Task, state: Cia402): seq<Event> {
    match t.stage
    case Check => [Looked(Reading(t.node, state))]
    case SetMode => [Sent(SetVelocityMode(t.node))]
    case LookForFault => [Looked(Reading(t.node, state))]
    case ClearFault => [Sent(Rpdo1(t.node, FAULT_RESET, 0))]
    case First(k) => [Sent(Rpdo1(t.node, ControlWord(k), VELOCITY_MODE))]
    case Second(k) => [Sent(Rpdo1(t.node, ControlWord(k), VELOCITY_MODE))]
    case Look(_, _) => [Looked(Reading(t.node, state))]
    case Begin(_) => []
    case Poll(_, _) => []
    case Over(_) => []
  }

  /** A task takes a turn: when, and the state its drive shows then. */
  datatype Turn = Turn(task: nat, now: int, state: Cia402)

  /** A task on its own. */
  function Alone(t: Task, turns: seq<Turn>): (u: Task)
    ensures u.node == t.node
  {
    if turns == [] then t
    else
      var last := turns[|turns| - 1];
      Advance(Alone(t, turns[..|turns| - 1]), last.now, last.state)
  }

  function AloneEvents(t: Task, turns: seq<Turn>): seq<Event> {
    if turns == [] then []
    else
      var before := turns[..|turns| - 1];
      AloneEvents(t, before) + Output(Alone(t, before), turns[|turns| - 1].state)
  }

  /* ---- all tasks ---- */

  /** What happened, and in which task. */
  datatype Entry = Entry(task: nat, event: Event)

  function Entries(task: nat, events: seq<Event>): seq<Entry> {
    seq(|events|, k requires 0 <= k < |events| => Entry(task, events[k]))
  }

  function Starting(ids: seq<byte>, now: int): seq<Task> {
    seq(|ids|, i requires 0 <= i < |ids| => Fresh(ids[i], now))
  }

  /** Every turn is one of a task that is there. */
  predicate Turns(ids: seq<byte>, turns: seq<Turn>) {
    forall k :: 0 <= k < |turns| ==> turns[k].task < |ids|
  }

  function Tasks(ids: seq<byte>, now: int, turns: seq<Turn>): (ts: seq<Task>)
    requires Turns(ids, turns)
    ensures |ts| == |ids| && forall i :: 0 <= i < |ids| ==> ts[i].node == ids[i]
  {
    if turns == [] then Starting(ids, now)
    else
      var last, before := turns[|turns| - 1], Tasks(ids, now, turns[..|turns| - 1]);
      assert turns[|turns| - 1].task < |ids|;
      before[last.task := Advance(before[last.task], last.now, last.state)]
  }

  function Log(ids: seq<byte>, now: int, turns: seq<Turn>): seq<Entry>
    requires Turns(ids, turns)
  {
    if turns == [] then []
    else
      var last, before := turns[|turns| - 1], turns[..|turns| - 1];
      assert turns[|turns| - 1].task < |ids|;
      Log(ids, now, before) + Entries(last.task, Output(Tasks(ids, now, before)[last.task], last.state))
  }

  /** One more turn. */
  lemma OneMoreTurn(ids: seq<byte>, now: int, turns: seq<Turn>, turn: Turn)
    requires Turns(ids, turns) && turn.task < |ids|
    ensures Turns(ids, turns + [turn])
    ensures var ts := Tasks(ids, now, turns);
            && Tasks(ids, now, turns + [turn])
               == ts[turn.task := Advance(ts[turn.task], turn.now, turn.state)]
            && Log(ids, now, turns + [turn])
               == Log(ids, now, turns) + Entries(turn.task, Output(ts[turn.task], turn.state))
  {
    hide Advance, Output;
    assert (turns + [turn])[..|turns|] == turns;
  }

  function OwnTurns(turns: seq<Turn>, i: nat): seq<Turn> {
    if turns == [] then []
    else
      var last := turns[|turns| - 1];
      OwnTurns(turns[..|turns| - 1], i) + (if last.task == i then [last] else [])
  }

  function OwnEvents(log: seq<Entry>, i: nat): seq<Event> {
    if log == [] then []
    else
      var last := log[|log| - 1];
      OwnEvents(log[..|log| - 1], i) + (if last.task == i then [last.event] else [])
  }

  /** The frames on the bus, and the readings, in order. */
  function WireOf(log: seq<Entry>): seq<CanFrame> {
    if log == [] then []
    else
      var last := log[|log| - 1];
      WireOf(log[..|log| - 1]) + (if last.event.Sent? then [last.event.frame] else [])
  }

  function SeenOf(log: seq<Entry>): seq<Reading> {
    if log == [] then []
    else
      var last := log[|log| - 1];
      SeenOf(log[..|log| - 1]) + (if last.event.Looked? then [last.event.reading] else [])
  }

  function FramesOf(events: seq<Event>): seq<CanFrame> {
    if events == [] then []
    else
      var last := events[|events| - 1];
      FramesOf(events[..|events| - 1]) + (if last.Sent? then [last.frame] else [])
  }

  function CommandsTo(wire: seq<CanFrame>, node: byte): seq<CanFrame> {
    if wire == [] then []
    else
      var last := wire[|wire| - 1];
      CommandsTo(wire[..|wire| - 1], node) + (if Commands(last, node) then [last] else [])
  }

  /** A turn makes at most one entry. */
  lemma AtMostOneEntry(task: nat, t: Task, state: Cia402)
    ensures |Output(t, state)| <= 1
    ensures Output(t, state) == [] ==> Entries(task, Output(t, state)) == []
    ensures Output(t, state) != [] ==> Entries(task, Output(t, state)) == [Entry(task, Output(t, state)[0])]
  {
  }

  lemma Appended(log: seq<Entry>, e: Entry, i: nat)
    ensures OwnEvents(log + [e], i) == OwnEvents(log, i) + (if e.task == i then [e.event] else [])
    ensures WireOf(log + [e]) == WireOf(log) + (if e.event.Sent? then [e.event.frame] else [])
    ensures SeenOf(log + [e]) == SeenOf(log) + (if e.event.Looked? then [e.event.reading] else [])
  {
    assert (log + [e])[..|log|] == log;
  }

  /* ---- the tasks do not disturb each other ---- */

  /** However the tasks' turns mix, each task gets where it would get on its own turns
      alone, and does what it would do. */
  lemma {:induction false} Independent(ids: seq<byte>, now: int, turns: seq<Turn>, i: nat)
    requires Turns(ids, turns) && i < |ids|
    ensures Tasks(ids, now, turns)[i] == Alone(Fresh(ids[i], now), OwnTurns(turns, i))
    ensures OwnEvents(Log(ids, now, turns), i) == AloneEvents(Fresh(ids[i], now), OwnTurns(turns, i))
    decreases |turns|
  {
    hide Advance, Output;
    hide Entries, Tasks, Log, Alone, AloneEvents, OwnEvents;
    if turns == [] {
      NoTurns(ids, now, i);
    } else {
      var before, last := turns[..|turns| - 1], turns[|turns| - 1];
      Independent(ids, now, before, i);
      var t := Tasks(ids, now, before)[last.task];
      assert turns == before + [last];
      OneMoreTurn(ids, now, before, last);
      OneMoreAlone(Fresh(ids[i], now), OwnTurns(before, i), last);
      OwnAppended(Log(ids, now, before), last.task, t, last.state, i);
      assert OwnTurns(turns, i) == OwnTurns(before, i) + (if last.task == i then [last] else []);
      if last.task != i {
        assert OwnTurns(turns, i) == OwnTurns(before, i);
      }
    }
  }

  lemma NoTurns(ids: seq<byte>, now: int, i: nat)
    requires i < |ids|
    ensures Tasks(ids, now, [])[i] == Alone(Fresh(ids[i], now), [])
    ensures OwnEvents(Log(ids, now, []), i) == AloneEvents(Fresh(ids[i], now), []) == []
  {
  }

  lemma OneMoreAlone(t: Task, turns: seq<Turn>, turn: Turn)
    ensures Alone(t, turns + [turn]) == Advance(Alone(t, turns), turn.now, turn.state)
    ensures AloneEvents(t, turns + [turn]) == AloneEvents(t, turns) + Output(Alone(t, turns), turn.state)
  {
    hide Advance, Output;
    assert (turns + [turn])[..|turns|] == turns;
  }

  lemma OwnAppended(log: seq<Entry>, task: nat, t: Task, state: Cia402, i: nat)
    ensures OwnEvents(log + Entries(task, Output(t, state)), i)
            == OwnEvents(log, i) + (if task == i then Output(t, state) else [])
  {
    hide Output, Entries;
    AtMostOneEntry(task, t, state);
    if Output(t, state) != [] {
      Appended(log, Entry(task, Output(t, state)[0]), i);
    } else {
      assert log + [] == log;
    }
  }

  /* ---- what a task sends ---- */

  /** The rungs counted are those whose control word went out. */
  predicate InStep(t: Task) {
    match t.stage
    case Check => t.rungs == 0 && !t.faulted
    case SetMode => t.rungs == 0 && !t.faulted
    case LookForFault => t.rungs == 0 && !t.faulted
    case ClearFault => t.rungs == 0 && t.faulted
    case First(k) => t.rungs == k - 1
    case Second(k) => t.rungs == k
    case Begin(k) => t.rungs == k
    case Poll(k, _) => t.rungs == k
    case Look(k, deadline) => t.rungs == k && t.wake < deadline
    case Over(enabled) => t.rungs <= 3 && (enabled ==> t.rungs in {0, 3}) && (t.rungs == 0 ==> enabled)
  }

  /** What the task has sent so far: nothing if it found its drive in operation, and else
      the mode, the fault reset, and the ladder as far as it got. */
  function SentBy(t: Task): seq<CanFrame> {
    match t.stage
    case Check => []
    case SetMode => []
    case ClearFault => [SetVelocityMode(t.node)]
    case Second(k) =>
      EnableFrames(t.node, t.faulted, k - 1) + [Rpdo1(t.node, ControlWord(k), VELOCITY_MODE)]
    case Over(_) => if t.rungs == 0 then [] else EnableFrames(t.node, t.faulted, t.rungs)
    case _ => EnableFrames(t.node, t.faulted, t.rungs)
  }

  lemma LadderStep(node: byte, faulted: bool, k: Rung)
    ensures var word := Rpdo1(node, ControlWord(k), VELOCITY_MODE);
            EnableFrames(node, faulted, k - 1) + [word] + [word] == EnableFrames(node, faulted, k)
    ensures EnableFrames(node, false, 0) == [SetVelocityMode(node)]
    ensures EnableFrames(node, true, 0) == [SetVelocityMode(node)] + [Rpdo1(node, FAULT_RESET, 0)]
  {
    hide Rpdo1, SetVelocityMode;
  }

  lemma OneFrame(t: Task, state: Cia402)
    ensures var out := Output(t, state);
            && (out == [] || out[0].Looked? ==> FramesOf(out) == [])
            && (out != [] && out[0].Sent? ==> FramesOf(out) == [out[0].frame])
  {
    hide Rpdo1, SetVelocityMode;
    AtMostOneEntry(0, t, state);
    var out := Output(t, state);
    if out != [] {
      assert out[..0] == [];
    }
  }

  lemma StepFrames(t: Task, now: int, state: Cia402)
    requires InStep(t)
    ensures InStep(Advance(t, now, state))
    ensures SentBy(Advance(t, now, state)) == SentBy(t) + FramesOf(Output(t, state))
  {
    hide Rpdo1, SetVelocityMode, EnableFrames, FramesOf, ControlWord, Target;
    OneFrame(t, state);
    if t.stage.First? || t.stage.Second? {
      LadderStep(t.node, t.faulted, t.stage.rung);
    } else {
      LadderStep(t.node, t.faulted, 1);
    }
  }

  lemma FramesAppend(a: seq<Event>, b: seq<Event>)
    requires |b| <= 1
    ensures FramesOf(a + b) == FramesOf(a) + FramesOf(b)
  {
    if b == [] {
      assert a + b == a;
    } else {
      assert (a + b)[..|a|] == a && b[..0] == [];
    }
  }

  /** Whatever it finds, a task has sent exactly the frames of the stage it is in. */
  lemma {:induction false} TaskFrames(node: byte, now: int, turns: seq<Turn>)
    ensures var t := Alone(Fresh(node, now), turns);
            InStep(t) && FramesOf(AloneEvents(Fresh(node, now), turns)) == SentBy(t)
    decreases |turns|
  {
    hide Advance, Output, SentBy;
    if turns != [] {
      var before, last := turns[..|turns| - 1], turns[|turns| - 1];
      TaskFrames(node, now, before);
      var t := Alone(Fresh(node, now), before);
      StepFrames(t, last.now, last.state);
      AtMostOneEntry(0, t, last.state);
      FramesAppend(AloneEvents(Fresh(node, now), before), Output(t, last.state));
    } else {
      NothingSent(node, now);
    }
  }

  lemma NothingSent(node: byte, now: int)
    ensures SentBy(Fresh(node, now)) == []
  {
  }

  /* ---- what it read before ---- */

  predicate Did(events: seq<Event>, e: Event) { exists m :: 0 <= m < |events| && events[m] == e }

  function WordOf(node: byte, k: Rung): Event { Sent(Rpdo1(node, ControlWord(k), VELOCITY_MODE)) }

  /** The rung's control word was sent, and after that its state was read. */
  ghost predicate Answered(node: byte, k: Rung, events: seq<Event>) {
    exists m :: 0 <= m < |events| && events[m] == Looked(Reading(node, Target(k))) && Did(events[..m], WordOf(node, k))
  }

  /** The drive followed below the rung the task is on, and the word of that rung was
      sent once the task waits for its state. */
  ghost predicate Climbed(t: Task, events: seq<Event>) {
    && (t.rungs >= 2 || t.stage == First(2) ==> Answered(t.node, 1, events))
    && (t.rungs >= 3 || t.stage == First(3) ==> Answered(t.node, 2, events))
    && (t.stage.Second? || t.stage.Begin? || t.stage.Poll? || t.stage.Look? ==>
          Did(events, WordOf(t.node, t.stage.rung)))
  }

  /** A control word above the first went out only after the drive had followed the one
      below it. */
  ghost predicate OneAfterTheOther(node: byte, events: seq<Event>) {
    forall j, k: Rung :: 0 <= j < |events| && k >= 2 && events[j] == WordOf(node, k) ==>
      Answered(node, k - 1, events[..j])
  }

  /** How a task ends: it was enabled exactly if its drive was in operation at first or
      it climbed all rungs, and was read so last. */
  ghost predicate Verdict(t: Task, events: seq<Event>) {
    t.stage.Over? ==>
      && events != []
      && (t.stage.enabled <==> t.rungs in {0, 3} && events[|events| - 1] == Looked(Reading(t.node, OperationEnabled)))
  }

  /** What it found at first decides whether it acts at all, and whether it clears a
      fault. */
  ghost predicate Began(t: Task, events: seq<Event>) {
    && (t.stage.Check? <==> events == [])
    && (events != [] ==> events[0].Looked? && events[0].reading.node == t.node)
    && (events != [] ==> (events[0].reading.state == OperationEnabled <==> t.stage.Over? && t.rungs == 0))
    && (t.stage.ClearFault? || t.stage.First? || t.rungs > 0 ==>
          && |events| >= 3 && events[2].Looked? && events[2].reading.node == t.node
          && (t.faulted <==> events[2].reading.state == Fault))
    && (t.stage.SetMode? ==> |events| == 1)
    && (t.stage.LookForFault? ==> |events| == 2)
  }

  lemma DidMore(events: seq<Event>, more: seq<Event>, e: Event)
    ensures Did(events + more, e) <==> Did(events, e) || Did(more, e)
  {
    if Did(events, e) {
      var m :| 0 <= m < |events| && events[m] == e;
      assert (events + more)[m] == e;
    }
    if Did(more, e) {
      var m :| 0 <= m < |more| && more[m] == e;
      assert (events + more)[|events| + m] == e;
    }
  }

  lemma AnsweredMore(node: byte, k: Rung, events: seq<Event>, more: seq<Event>)
    requires Answered(node, k, events)
    ensures Answered(node, k, events + more)
  {
    hide Did, WordOf;
    var m :| 0 <= m < |events| && events[m] == Looked(Reading(node, Target(k))) && Did(events[..m], WordOf(node, k));
    assert (events + more)[..m] == events[..m] && (events + more)[m] == events[m];
  }

  lemma AnsweredNow(node: byte, k: Rung, events: seq<Event>)
    requires Did(events, WordOf(node, k))
    ensures Answered(node, k, events + [Looked(Reading(node, Target(k)))])
  {
    hide Did, WordOf;
    assert (events + [Looked(Reading(node, Target(k)))])[..|events|] == events;
  }

  lemma StepClimbed(t: Task, events: seq<Event>, now: int, state: Cia402)
    requires InStep(t) && Climbed(t, events)
    ensures Climbed(Advance(t, now, state), events + Output(t, state))
  {
    hide Did, Answered;
    var more := Output(t, state);
    forall k: Rung | Answered(t.node, k, events)
      ensures Answered(t.node, k, events + more)
    {
      AnsweredMore(t.node, k, events, more);
    }
    if t.stage.Second? || t.stage.Begin? || t.stage.Poll? || t.stage.Look? {
      DidMore(events, more, WordOf(t.node, t.stage.rung));
    }
    if t.stage.First? {
      DidMore(events, more, WordOf(t.node, t.stage.rung));
      OnlyOne(WordOf(t.node, t.stage.rung));
    } else if t.stage.Look? && state == Target(t.stage.rung) {
      AnsweredNow(t.node, t.stage.rung, events);
    }
  }

  lemma OnlyOne(e: Event)
    ensures Did([e], e)
  {
    assert [e][0] == e;
  }

  lemma WordsDiffer(node: byte, k: Rung, l: Rung)
    requires k != l
    ensures Rpdo1(node, ControlWord(k), VELOCITY_MODE) != Rpdo1(node, ControlWord(l), VELOCITY_MODE)
    ensures Rpdo1(node, ControlWord(k), VELOCITY_MODE) != Rpdo1(node, FAULT_RESET, 0)
    ensures Rpdo1(node, ControlWord(k), VELOCITY_MODE) != SetVelocityMode(node)
  {
    assert Rpdo1(node, ControlWord(k), VELOCITY_MODE).data[0] == ControlWord(k);
    assert Rpdo1(node, ControlWord(l), VELOCITY_MODE).data[0] == ControlWord(l);
    assert Rpdo1(node, FAULT_RESET, 0).data[0] == FAULT_RESET;
  }

  lemma SentOnItsRung(t: Task, state: Cia402, k: Rung)
    requires InStep(t) && k >= 2 && Output(t, state) == [WordOf(t.node, k)]
    ensures t.stage == First(k) || t.stage == Second(k)
  {
    hide Rpdo1, SetVelocityMode;
    if t.stage.First? || t.stage.Second? {
      if t.stage.rung != k { WordsDiffer(t.node, k, t.stage.rung); }
    } else {
      WordsDiffer(t.node, k, 1);
    }
  }

  lemma StepOrder(t: Task, events: seq<Event>, state: Cia402)
    requires InStep(t) && Climbed(t, events) && OneAfterTheOther(t.node, events)
    ensures OneAfterTheOther(t.node, events + Output(t, state))
  {
    hide Output, WordOf, Did, Answered;
    var all := events + Output(t, state);
    AtMostOneEntry(0, t, state);
    forall j, k: Rung | 0 <= j < |all| && k >= 2 && all[j] == WordOf(t.node, k)
      ensures Answered(t.node, k - 1, all[..j])
    {
      if j < |events| {
        assert events[j] == all[j] && all[..j] == events[..j];
      } else {
        assert j == |events| && all[..j] == events && Output(t, state) == [all[j]];
        SentOnItsRung(t, state, k);
      }
    }
  }

  lemma StepBegan(t: Task, events: seq<Event>, now: int, state: Cia402)
    requires InStep(t) && Began(t, events)
    ensures Began(Advance(t, now, state), events + Output(t, state))
  {
    hide Rpdo1, SetVelocityMode, ControlWord;
    assert events == [] ==> events + Output(t, state) == Output(t, state);
  }

  /** A task that waits has not read its state since it sent the word. */
  ghost predicate Waiting(t: Task, events: seq<Event>) {
    match t.stage
    case Begin(_) => events != [] && events[|events| - 1].Sent?
    case Poll(k, _) => events != [] && events[|events| - 1] != Looked(Reading(t.node, Target(k)))
    case Look(k, _) => events != [] && events[|events| - 1] != Looked(Reading(t.node, Target(k)))
    case _ => true
  }

  lemma StepWaiting(t: Task, events: seq<Event>, now: int, state: Cia402)
    requires InStep(t) && Waiting(t, events)
    ensures Waiting(Advance(t, now, state), events + Output(t, state))
  {
    hide Rpdo1, SetVelocityMode, ControlWord;
  }

  lemma StepVerdict(t: Task, events: seq<Event>, now: int, state: Cia402)
    requires InStep(t) && Verdict(t, events) && Began(t, events) && Waiting(t, events)
    ensures Verdict(Advance(t, now, state), events + Output(t, state))
  {
    hide Rpdo1, SetVelocityMode;
  }

  /** Whatever a task finds: it begins, climbs and ends as stated. */
  lemma {:induction false} TaskHistory(node: byte, now: int, turns: seq<Turn>)
    ensures var t, events := Alone(Fresh(node, now), turns), AloneEvents(Fresh(node, now), turns);
            Began(t, events) && OneAfterTheOther(node, events) && Verdict(t, events)
    ensures var t, events := Alone(Fresh(node, now), turns), AloneEvents(Fresh(node, now), turns);
            InStep(t) && Climbed(t, events) && Waiting(t, events)
    decreases |turns|
  {
    var first := Fresh(node, now);
    if turns != [] {
      hide Advance, Output, Began, OneAfterTheOther, Verdict, Climbed, InStep, Waiting;
      var before, last := turns[..|turns| - 1], turns[|turns| - 1];
      TaskHistory(node, now, before);
      var t, events := Alone(first, before), AloneEvents(first, before);
      StepFrames(t, last.now, last.state);
      StepBegan(t, events, last.now, last.state);
      StepClimbed(t, events, last.now, last.state);
      StepOrder(t, events, last.state);
      StepWaiting(t, events, last.now, last.state);
      StepVerdict(t, events, last.now, last.state);
    }
  }

  /* ---- every task ends ---- */

  function Polls(time: int): nat { if time <= 0 then 0 else (time + 9) / 10 }

  /** At most so many more turns. */
  function Rank(t: Task): nat {
    match t.stage
    case Check => 1216
    case SetMode => 1215
    case LookForFault => 1214
    case ClearFault => 1213
    case First(k) => 404 * (3 - k) + 404
    case Second(k) => 404 * (3 - k) + 403
    case Begin(k) => 404 * (3 - k) + 402
    case Poll(k, deadline) => 404 * (3 - k) + 2 * Polls(deadline - t.wake) + 1
    case Look(k, deadline) => 404 * (3 - k) + 2 * Polls(deadline - t.wake)
    case Over(_) => 0
  }

  lemma TurnCounts(t: Task, now: int, state: Cia402)
    requires InStep(t) && now >= t.wake && !t.stage.Over?
    ensures Rank(Advance(t, now, state)) < Rank(t)
  {
    assert Polls(2000) == 200;
    if t.stage.Poll? || t.stage.Look? {
      PollsFall(t.stage.deadline - now, t.stage.deadline - t.wake);
      hide Polls;
      WaitCounts(t, now, state);
    }
  }

  lemma WaitCounts(t: Task, now: int, state: Cia402)
    requires t.stage.Poll? || t.stage.Look?
    requires var a, b := t.stage.deadline - now, t.stage.deadline - t.wake;
             Polls(a) <= Polls(b) && (t.stage.Look? ==> Polls(a - 10) < Polls(b))
    ensures Rank(Advance(t, now, state)) < Rank(t)
  {
    hide Polls, Target;
  }

  lemma PollsFall(a: int, b: int)
    requires a <= b
    ensures Polls(a) <= Polls(b)
    ensures b > 0 ==> Polls(a - 10) < Polls(b)
  {
  }

  /** No turn comes while the task sleeps. */
  predicate Awake(t: Task, turns: seq<Turn>) {
    turns == [] ||
    (var before, last := turns[..|turns| - 1], turns[|turns| - 1];
     Awake(t, before) && (Alone(t, before).stage.Over? || last.now >= Alone(t, before).wake))
  }

  lemma {:induction false} AloneEnds(node: byte, now: int, turns: seq<Turn>)
    requires Awake(Fresh(node, now), turns)
    ensures var t := Alone(Fresh(node, now), turns); t.stage.Over? || Rank(t) + |turns| <= 1216
    decreases |turns|
  {
    hide Advance, InStep;
    if turns != [] {
      hide Rank;
      var before, last := turns[..|turns| - 1], turns[|turns| - 1];
      AloneEnds(node, now, before);
      TaskHistory(node, now, before);
      var t := Alone(Fresh(node, now), before);
      if t.stage.Over? {
        OverStays(t, last.now, last.state);
      } else {
        TurnCounts(t, last.now, last.state);
      }
    }
  }

  lemma OverStays(t: Task, now: int, state: Cia402)
    requires t.stage.Over?
    ensures Advance(t, now, state) == t
  {
  }

  /** Every task is over after at most 1216 turns of its own, whatever the others do. */
  lemma TasksEnd(ids: seq<byte>, now: int, turns: seq<Turn>, i: nat)
    requires Turns(ids, turns) && i < |ids| && Awake(Fresh(ids[i], now), OwnTurns(turns, i))
    requires |OwnTurns(turns, i)| >= 1216
    ensures Tasks(ids, now, turns)[i].stage.Over?
  {
    hide Rank, InStep, Verdict, Climbed, Began, OneAfterTheOther, Waiting;
    var own := OwnTurns(turns, i);
    Independent(ids, now, turns, i);
    AloneEnds(ids[i], now, own);
    TaskHistory(ids[i], now, own);
    RankIsPositive(Alone(Fresh(ids[i], now), own));
  }

  lemma RankIsPositive(t: Task)
    requires InStep(t)
    ensures Rank(t) == 0 ==> t.stage.Over?
  {
  }

  /* ---- what the drives see ---- */

  /** Each frame commands its task's drive and no other. */
  ghost predicate Tagged(ids: seq<byte>, log: seq<Entry>) {
    forall k :: 0 <= k < |log| ==>
      log[k].task < |ids| &&
      (log[k].event.Sent? ==> CommandsOnly(log[k].event.frame, ids[log[k].task]))
  }

  ghost predicate CommandsOnly(f: CanFrame, node: byte) { forall n: byte :: Commands(f, n) <==> n == node }

  lemma OutputIsTagged(t: Task, state: Cia402)
    ensures forall e :: e in Output(t, state) && e.Sent? ==> CommandsOnly(e.frame, t.node)
    ensures forall e :: e in Output(t, state) && e.Looked? ==> e.reading == Reading(t.node, state)
  {
  }

  lemma {:induction false} LogIsTagged(ids: seq<byte>, now: int, turns: seq<Turn>)
    requires Turns(ids, turns)
    ensures Tagged(ids, Log(ids, now, turns))
    decreases |turns|
  {
    hide Advance, Output, CommandsOnly;
    if turns != [] {
      var before, last := turns[..|turns| - 1], turns[|turns| - 1];
      LogIsTagged(ids, now, before);
      OutputIsTagged(Tasks(ids, now, before)[last.task], last.state);
    }
  }

  predicate DistinctIds(ids: seq<byte>) { forall i, j :: 0 <= i < j < |ids| ==> ids[i] != ids[j] }

  lemma {:induction false} OwnIsCommands(ids: seq<byte>, log: seq<Entry>, i: nat)
    requires Tagged(ids, log) && DistinctIds(ids) && i < |ids|
    ensures CommandsTo(WireOf(log), ids[i]) == FramesOf(OwnEvents(log, i))
    decreases |log|
  {
    hide CommandsOnly, Commands;
    if log != [] {
      hide WireOf, OwnEvents, FramesOf, CommandsTo;
      var before, last := log[..|log| - 1], log[|log| - 1];
      assert log == before + [last];
      OwnIsCommands(ids, before, i);
      Appended(before, last, i);
      FramesOfOne(last.event);
      if last.event.Sent? {
        CommandsAppend(WireOf(before), last.event.frame, ids[last.task], ids[i]);
      } else {
        assert WireOf(before) + [] == WireOf(before);
      }
      if last.task == i {
        FramesAppend(OwnEvents(before, i), [last.event]);
      } else {
        assert OwnEvents(before, i) + [] == OwnEvents(before, i);
      }
    }
  }

  lemma FramesOfOne(e: Event)
    ensures FramesOf([e]) == if e.Sent? then [e.frame] else []
  {
    assert [e][..0] == [];
  }

  lemma CommandsAppend(wire: seq<CanFrame>, f: CanFrame, owner: byte, node: byte)
    requires CommandsOnly(f, owner)
    ensures CommandsTo(wire + [f], node) == CommandsTo(wire, node) + (if owner == node then [f] else [])
  {
    assert (wire + [f])[..|wire|] == wire;
    assert Commands(f, node) <==> node == owner;
  }

  /** However the tasks of distinct drives mix on the bus, what commands a drive is
      exactly what its own task has sent. */
  lemma DriveSees(ids: seq<byte>, now: int, turns: seq<Turn>, i: nat)
    requires Turns(ids, turns) && DistinctIds(ids) && i < |ids|
    ensures CommandsTo(WireOf(Log(ids, now, turns)), ids[i]) == SentBy(Tasks(ids, now, turns)[i])
  {
    hide SentBy, InStep, Alone, AloneEvents;
    LogIsTagged(ids, now, turns);
    OwnIsCommands(ids, Log(ids, now, turns), i);
    Independent(ids, now, turns, i);
    TaskFrames(ids[i], now, OwnTurns(turns, i));
  }

  /** Every reading of the node shows it in operation. */
  predicate InOperationThroughout(node: byte, seen: seq<Reading>) {
    forall k :: 0 <= k < |seen| && seen[k].node == node ==> seen[k].state == OperationEnabled
  }

  lemma StepSpares(t: Task, node: byte, state: Cia402)
    requires t.node == node ==> t.stage.Check? || t.stage == Over(true)
    requires t.node == node && Output(t, state) != [] && Output(t, state)[0].Looked? ==> state == OperationEnabled
    ensures t.node == node ==>
              forall now: int :: Advance(t, now, state).stage == if Output(t, state) == [] then t.stage else Over(true)
    ensures forall e :: e in Output(t, state) && e.Sent? ==> !Commands(e.frame, node)
  {
    OutputIsTagged(t, state);
  }

  lemma SeenAndSent(log: seq<Entry>, out: seq<Entry>, node: byte)
    requires |out| <= 1
    ensures InOperationThroughout(node, SeenOf(log + out)) ==> InOperationThroughout(node, SeenOf(log))
    ensures InOperationThroughout(node, SeenOf(log + out)) && out != [] && out[0].event.Looked? ==>
              (out[0].event.reading.node == node ==> out[0].event.reading.state == OperationEnabled)
    ensures Spared(node, WireOf(log), 0) ==>
              (out != [] && out[0].event.Sent? ==> !Commands(out[0].event.frame, node)) ==>
              Spared(node, WireOf(log + out), 0)
  {
    hide Commands;
    if out == [] {
      assert log + out == log;
    } else {
      assert out == [out[0]];
      Appended(log, out[0], 0);
      var seen := SeenOf(log);
      assert forall k :: 0 <= k < |seen| ==> SeenOf(log + out)[k] == seen[k];
      if out[0].event.Looked? { assert SeenOf(log + out)[|seen|] == out[0].event.reading; }
    }
  }

  /** A drive that every look finds in operation gets no frame from any task. */
  lemma {:induction false} HealthyIsSpared(ids: seq<byte>, now: int, turns: seq<Turn>, node: byte)
    requires Turns(ids, turns) && InOperationThroughout(node, SeenOf(Log(ids, now, turns)))
    ensures Spared(node, WireOf(Log(ids, now, turns)), 0)
    ensures forall i :: 0 <= i < |ids| && ids[i] == node ==>
              Tasks(ids, now, turns)[i].stage.Check? || Tasks(ids, now, turns)[i].stage == Over(true)
    decreases |turns|
  {
    if turns != [] {
      hide Advance, Output, Commands, InOperationThroughout, Spared;
      var before, last := turns[..|turns| - 1], turns[|turns| - 1];
      var t := Tasks(ids, now, before)[last.task];
      AtMostOneEntry(last.task, t, last.state);
      OutputIsTagged(t, last.state);
      SeenAndSent(Log(ids, now, before), Entries(last.task, Output(t, last.state)), node);
      HealthyIsSpared(ids, now, before, node);
      StepSpares(t, node, last.state);
    }
  }

  /* ---- what the bus and the readings show of a task ---- */

  /** Began, climbed and ended as stated, and sent exactly the frames of its stage, for
      every task of every interleaving. */
  lemma TaskStory(ids: seq<byte>, now: int, turns: seq<Turn>, i: nat)
    requires Turns(ids, turns) && i < |ids|
    ensures var t, own := Tasks(ids, now, turns)[i], OwnEvents(Log(ids, now, turns), i);
            && InStep(t) && FramesOf(own) == SentBy(t)
            && Began(t, own) && OneAfterTheOther(ids[i], own) && Verdict(t, own)
  {
    hide InStep, SentBy, Began, OneAfterTheOther, Verdict, Climbed, Waiting, Alone, AloneEvents;
    Independent(ids, now, turns, i);
    TaskFrames(ids[i], now, OwnTurns(turns, i));
    TaskHistory(ids[i], now, OwnTurns(turns, i));
  }

  lemma {:induction false} OwnIsOnRecord(log: seq<Entry>, i: nat)
    ensures forall e :: e in OwnEvents(log, i) && e.Looked? ==> e.reading in SeenOf(log)
    ensures forall f :: f in FramesOf(OwnEvents(log, i)) ==> f in WireOf(log)
    decreases |log|
  {
    if log != [] {
      hide WireOf, SeenOf, OwnEvents, FramesOf;
      var before, last := log[..|log| - 1], log[|log| - 1];
      assert log == before + [last];
      OwnIsOnRecord(before, i);
      Appended(before, last, i);
      FramesOfOne(last.event);
      if last.task == i {
        FramesAppend(OwnEvents(before, i), [last.event]);
      } else {
        assert OwnEvents(before, i) + [] == OwnEvents(before, i);
      }
    }
  }

  /** A task that is over found its drive in operation or told it to get ready; one that
      succeeded read it in operation. */
  lemma OverMeans(ids: seq<byte>, now: int, turns: seq<Turn>, i: nat)
    requires Turns(ids, turns) && i < |ids| && Tasks(ids, now, turns)[i].stage.Over?
    ensures var log := Log(ids, now, turns);
            && (Tasks(ids, now, turns)[i].stage.enabled ==> Reading(ids[i], OperationEnabled) in SeenOf(log))
            && (Reading(ids[i], OperationEnabled) in SeenOf(log)
                || Rpdo1(ids[i], SHUTDOWN, VELOCITY_MODE) in WireOf(log))
  {
    hide Tasks, Log, OneAfterTheOther, Rpdo1;
    var t, log := Tasks(ids, now, turns)[i], Log(ids, now, turns);
    var own := OwnEvents(log, i);
    TaskStory(ids, now, turns, i);
    OwnIsOnRecord(log, i);
    hide Began, OwnEvents, FramesOf;
    assert t.stage.enabled ==> own[|own| - 1] in own;
    if t.rungs > 0 {
      ReadyIsSent(ids[i], t.faulted, t.rungs);
    }
  }

  lemma ReadyIsSent(node: byte, faulted: bool, rungs: nat)
    requires rungs > 0
    ensures Rpdo1(node, SHUTDOWN, VELOCITY_MODE) in EnableFrames(node, faulted, rungs)
  {
    hide Rpdo1, SetVelocityMode;
    var word := Rpdo1(node, SHUTDOWN, VELOCITY_MODE);
    var ladder := LadderFrames(node, rungs);
    assert ladder[0] == word;
    assert word in ladder;
  }

  lemma OneMoreOnRecord(log: seq<Entry>, out: seq<Entry>)
    requires |out| <= 1
    ensures WireOf(log + out) == WireOf(log) + WireOf(out)
    ensures SeenOf(log + out) == SeenOf(log) + SeenOf(out)
  {
    if out == [] {
      assert log + out == log;
    } else {
      assert out == [] + [out[0]];
      Appended(log, out[0], 0);
      Appended([], out[0], 0);
    }
  }

  lemma AwakeMore(t: Task, turns: seq<Turn>, turn: Turn)
    requires Awake(t, turns) && turn.now >= Alone(t, turns).wake
    ensures Awake(t, turns + [turn])
  {
    assert (turns + [turn])[..|turns|] == turns;
  }

  lemma OwnTurnsMore(turns: seq<Turn>, turn: Turn, i: nat)
    ensures OwnTurns(turns + [turn], i) == OwnTurns(turns, i) + (if turn.task == i then [turn] else [])
  {
    assert (turns + [turn])[..|turns|] == turns;
  }

  /** No task has a turn while it sleeps. */
  predicate AllAwake(ids: seq<byte>, now: int, turns: seq<Turn>) {
    forall i :: 0 <= i < |ids| ==> Awake(Fresh(ids[i], now), OwnTurns(turns, i))
  }

  lemma AllAwakeMore(ids: seq<byte>, now: int, turns: seq<Turn>, turn: Turn)
    requires Turns(ids, turns) && AllAwake(ids, now, turns) && turn.task < |ids|
    requires turn.now >= Tasks(ids, now, turns)[turn.task].wake
    ensures AllAwake(ids, now, turns + [turn])
  {
    hide Awake, Alone, Tasks;
    forall i | 0 <= i < |ids|
      ensures Awake(Fresh(ids[i], now), OwnTurns(turns + [turn], i))
    {
      OwnTurnsMore(turns, turn, i);
      if turn.task == i {
        Independent(ids, now, turns, i);
        AwakeMore(Fresh(ids[i], now), OwnTurns(turns, i), turn);
      } else {
        assert OwnTurns(turns, i) + [] == OwnTurns(turns, i);
      }
    }
  }

  /** What one more turn of a task that is not over adds. */
  lemma TurnTaken(ids: seq<byte>, now: int, turns: seq<Turn>, turn: Turn)
    requires Turns(ids, turns) && AllAwake(ids, now, turns) && turn.task < |ids|
    requires var t := Tasks(ids, now, turns)[turn.task]; turn.now >= t.wake && !t.stage.Over?
    ensures Turns(ids, turns + [turn]) && AllAwake(ids, now, turns + [turn])
    ensures var t, log, more := Tasks(ids, now, turns)[turn.task], Log(ids, now, turns), Log(ids, now, turns + [turn]);
            var out := Entries(turn.task, Output(t, turn.state));
            && Tasks(ids, now, turns + [turn])
               == Tasks(ids, now, turns)[turn.task := Advance(t, turn.now, turn.state)]
            && more == log + out
            && WireOf(more) == WireOf(log) + WireOf(out) && SeenOf(more) == SeenOf(log) + SeenOf(out)
            && Rank(Advance(t, turn.now, turn.state)) < Rank(t)
  {
    hide Rank, Advance, Output, InStep, Began, OneAfterTheOther, Verdict, SentBy, WireOf, SeenOf, AllAwake, Tasks, Log;
    var t := Tasks(ids, now, turns)[turn.task];
    OneMoreTurn(ids, now, turns, turn);
    AllAwakeMore(ids, now, turns, turn);
    AtMostOneEntry(turn.task, t, turn.state);
    OneMoreOnRecord(Log(ids, now, turns), Entries(turn.task, Output(t, turn.state)));
    TaskStory(ids, now, turns, turn.task);
    TurnCounts(t, turn.now, turn.state);
  }

  /* ---- pace ---- */

  /** When each of the task's events happened. */
  function AloneTimes(t: Task, turns: seq<Turn>): (ts: seq<int>)
    ensures |ts| == |AloneEvents(t, turns)|
  {
    if turns == [] then []
    else
      var before, last := turns[..|turns| - 1], turns[|turns| - 1];
      AtMostOneEntry(0, Alone(t, before), last.state);
      AloneTimes(t, before) + (if Output(Alone(t, before), last.state) == [] then [] else [last.now])
  }

  predicate IsWord(node: byte, e: Event) {
    e in {WordOf(node, 1), WordOf(node, 2), WordOf(node, 3)}
  }

  /** Fifty milliseconds for the mode to take, a tenth of a second before each control
      word and two after a fault reset, and ten milliseconds between two looks. */
  ghost predicate InPace(node: byte, events: seq<Event>, times: seq<int>)
    requires |events| == |times|
  {
    && (|times| > 2 ==> times[2] - times[1] >= 50)
    && (forall j :: 0 < j < |events| && IsWord(node, events[j]) ==> times[j] - times[j - 1] >= 100)
    && (forall j :: 0 < j < |events| && IsWord(node, events[j]) ==>
          events[j - 1] == Sent(Rpdo1(node, FAULT_RESET, 0)) ==>
          times[j] - times[j - 1] >= 200)
    && (forall j :: 0 < j < |events| && events[j].Looked? && events[j - 1].Looked? ==> times[j] - times[j - 1] >= 10)
  }

  /** The last frame was sent this long before time d. */
  ghost predicate SentBefore(events: seq<Event>, times: seq<int>, d: int)
    requires |events| == |times|
  {
    exists i :: 0 <= i < |events| && SentLast(events, i) && times[i] + 2000 <= d
  }

  predicate SentLast(events: seq<Event>, i: nat)
    requires i < |events|
  {
    events[i].Sent? && forall j :: i < j < |events| ==> events[j].Looked?
  }

  /** How long the task sleeps after its last event. */
  ghost predicate Rests(t: Task, events: seq<Event>, times: seq<int>)
    requires |events| == |times|
  {
    t.stage.Check? || t.stage.Over? ||
    (events != [] &&
     var e, at := events[|events| - 1], times[|times| - 1];
     match t.stage
     case LookForFault => |events| == 2 && t.wake >= at + 50
     case SetMode => |events| == 1
     case ClearFault => |events| == 3
     case First(_) => |events| >= 3 && t.wake >= at + (if e == Sent(Rpdo1(t.node, FAULT_RESET, 0)) then 200 else 100)
     case Second(k) => |events| >= 3 && e == WordOf(t.node, k) && t.wake >= at + 100
     case Begin(k) => |events| >= 3 && e == WordOf(t.node, k) && t.wake >= at
     case Poll(_, deadline) => |events| >= 3 && (e.Looked? ==> t.wake >= at + 10) && SentBefore(events, times, deadline)
     case Look(_, deadline) => |events| >= 3 && (e.Looked? ==> t.wake >= at + 10) && SentBefore(events, times, deadline)
     case _ => true)
  }

  function TimesAfter(t: Task, times: seq<int>, turn: Turn): seq<int> {
    times + (if Output(t, turn.state) == [] then [] else [turn.now])
  }

  lemma SentNow(events: seq<Event>, times: seq<int>, e: Event, now: int)
    requires |events| == |times|
    ensures e.Looked? ==> forall d :: SentBefore(events, times, d) ==> SentBefore(events + [e], times + [now], d)
  {
    if e.Looked? {
      forall d | SentBefore(events, times, d)
        ensures SentBefore(events + [e], times + [now], d)
      {
        var i :| 0 <= i < |events| && SentLast(events, i) && times[i] + 2000 <= d;
        assert SentLast(events + [e], i);
      }
    }
  }

  lemma StepRests(t: Task, events: seq<Event>, times: seq<int>, turn: Turn)
    requires |events| == |times| && InStep(t) && Rests(t, events, times) && Began(t, events)
    requires !t.stage.Over? && turn.now >= t.wake
    ensures |events + Output(t, turn.state)| == |TimesAfter(t, times, turn)|
    ensures Rests(Advance(t, turn.now, turn.state), events + Output(t, turn.state), TimesAfter(t, times, turn))
  {
    hide SentBefore, Rpdo1, SetVelocityMode, ControlWord, Target;
    AtMostOneEntry(0, t, turn.state);
    var out := Output(t, turn.state);
    if out != [] {
      SentNow(events, times, out[0], turn.now);
      assert out == [out[0]];
    } else {
      assert events + out == events && times + [] == times;
    }
    if t.stage.Begin? {
      DeadlineSet(events, times, t.node, t.stage.rung, turn.now);
    }
  }

  lemma DeadlineSet(events: seq<Event>, times: seq<int>, node: byte, k: Rung, now: int)
    requires |events| == |times| && events != [] && events[|events| - 1] == WordOf(node, k)
    requires now >= times[|times| - 1]
    ensures SentBefore(events, times, now + 2000)
  {
    hide Rpdo1, ControlWord;
    assert SentLast(events, |events| - 1);
  }

  lemma StepInPace(t: Task, events: seq<Event>, times: seq<int>, turn: Turn)
    requires |events| == |times| && InStep(t) && Rests(t, events, times) && Began(t, events)
    requires InPace(t.node, events, times) && !t.stage.Over? && turn.now >= t.wake
    ensures |events + Output(t, turn.state)| == |TimesAfter(t, times, turn)|
    ensures InPace(t.node, events + Output(t, turn.state), TimesAfter(t, times, turn))
  {
    hide SentBefore, Rpdo1, SetVelocityMode, ControlWord, Target;
    AtMostOneEntry(0, t, turn.state);
    var out := Output(t, turn.state);
    if out != [] {
      assert out == [out[0]];
      NoWords(t, turn.state);
      if t.stage.Second? { WordsDiffer(t.node, t.stage.rung, if t.stage.rung == 1 then 2 else 1); }
    } else {
      assert events + out == events && times + [] == times;
    }
  }

  /** Control words of the ladder go out only on its rungs. */
  lemma NoWords(t: Task, state: Cia402)
    ensures Output(t, state) != [] && IsWord(t.node, Output(t, state)[0]) ==> t.stage.First? || t.stage.Second?
  {
    hide Rpdo1, SetVelocityMode, ControlWord;
    WordsDiffer(t.node, 1, 2);
    WordsDiffer(t.node, 2, 3);
    WordsDiffer(t.node, 3, 1);
  }

  /** Whatever a task finds, it keeps the pace. */
  lemma {:induction false} TaskPace(node: byte, now: int, turns: seq<Turn>)
    requires Awake(Fresh(node, now), turns)
    ensures var first := Fresh(node, now);
            && InPace(node, AloneEvents(first, turns), AloneTimes(first, turns))
            && Rests(Alone(first, turns), AloneEvents(first, turns), AloneTimes(first, turns))
    decreases |turns|
  {
    var first := Fresh(node, now);
    if turns != [] {
      hide Advance, Output, InPace, Rests, InStep, Began, OneAfterTheOther, Verdict, Climbed, Waiting;
      var before, last := turns[..|turns| - 1], turns[|turns| - 1];
      TaskPace(node, now, before);
      TaskHistory(node, now, before);
      var t := Alone(first, before);
      if t.stage.Over? {
        OverStays(t, last.now, last.state);
        NothingMore(t, last.state);
        assert AloneEvents(first, before) + [] == AloneEvents(first, before);
        assert AloneTimes(first, before) + [] == AloneTimes(first, before);
      } else {
        StepRests(t, AloneEvents(first, before), AloneTimes(first, before), last);
        StepInPace(t, AloneEvents(first, before), AloneTimes(first, before), last);
      }
    }
  }

  lemma NothingMore(t: Task, state: Cia402)
    requires t.stage.Over?
    ensures Output(t, state) == []
  {
  }

  /** A task gives up only on a fault, or two seconds after its last frame. */
  lemma GivesUp(node: byte, now: int, turns: seq<Turn>, turn: Turn)
    requires Awake(Fresh(node, now), turns + [turn])
    requires !Alone(Fresh(node, now), turns).stage.Over?
    requires Alone(Fresh(node, now), turns + [turn]).stage == Over(false)
    ensures var events := AloneEvents(Fresh(node, now), turns + [turn]);
            || (events != [] && events[|events| - 1] == Looked(Reading(node, Fault)))
            || exists i :: 0 <= i < |events| && SentLast(events, i)
                 && turn.now - AloneTimes(Fresh(node, now), turns + [turn])[i] >= 2000
  {
    hide Awake, Alone, AloneEvents, Advance, Output, Rests, InPace, InStep, Began, OneAfterTheOther, Verdict, Climbed,
         Waiting, SentLast;
    var first := Fresh(node, now);
    AwakeBefore(first, turns, turn);
    TaskPace(node, now, turns);
    TaskHistory(node, now, turns);
    OneMoreAlone(first, turns, turn);
    assert (turns + [turn])[..|turns|] == turns;
    assert AloneTimes(first, turns + [turn]) == TimesAfter(Alone(first, turns), AloneTimes(first, turns), turn);
    GivesUpNow(Alone(first, turns), AloneEvents(first, turns), AloneTimes(first, turns), turn);
  }

  lemma GivesUpNow(t: Task, events: seq<Event>, times: seq<int>, turn: Turn)
    requires |events| == |times| && Rests(t, events, times) && !t.stage.Over?
    requires Advance(t, turn.now, turn.state).stage == Over(false)
    ensures |events + Output(t, turn.state)| == |TimesAfter(t, times, turn)|
    ensures var all, at := events + Output(t, turn.state), TimesAfter(t, times, turn);
            || (all != [] && all[|all| - 1] == Looked(Reading(t.node, Fault)))
            || exists i :: 0 <= i < |all| && SentLast(all, i) && turn.now - at[i] >= 2000
  {
    hide Rpdo1, SetVelocityMode, ControlWord, Target;
    AtMostOneEntry(0, t, turn.state);
    if t.stage.Poll? {
      var i :| 0 <= i < |events| && SentLast(events, i) && times[i] + 2000 <= t.stage.deadline;
      assert events + [] == events && times + [] == times;
      assert SentLast(events + [], i);
    }
  }

  lemma AwakeBefore(t: Task, turns: seq<Turn>, turn: Turn)
    requires Awake(t, turns + [turn])
    ensures Awake(t, turns)
  {
    assert (turns + [turn])[..|turns|] == turns;
  }

  /** The control word was sent, and the state read after that. */
  ghost predicate HeardAfter(node: byte, events: seq<Event>, controlword: int, state: Cia402) {
    exists m :: 0 <= m < |events| && events[m] == Looked(Reading(node, state))
      && Did(events[..m], Sent(Rpdo1(node, controlword, VELOCITY_MODE)))
  }

  /** In every interleaving a drive is told to switch on only after it was told to shut down
      and then read ready, and to enable operation only after it was told to switch on and
      then read switched on. */
  lemma LadderInOrder(ids: seq<byte>, now: int, turns: seq<Turn>, i: nat, j: nat)
    requires Turns(ids, turns) && i < |ids| && j < |OwnEvents(Log(ids, now, turns), i)|
    ensures var n, own := ids[i], OwnEvents(Log(ids, now, turns), i);
            && (own[j] == Sent(Rpdo1(n, SWITCH_ON, VELOCITY_MODE)) ==>
                  HeardAfter(n, own[..j], SHUTDOWN, ReadyToSwitchOn))
            && (own[j] == Sent(Rpdo1(n, ENABLE_OPERATION, VELOCITY_MODE)) ==>
                  HeardAfter(n, own[..j], SWITCH_ON, SwitchedOn))
  {
    TaskStory(ids, now, turns, i);
    hide Rpdo1, Log, OwnEvents, Did, SentBy, Began, Verdict, InStep;
    var n, own := ids[i], OwnEvents(Log(ids, now, turns), i);
    assert WordOf(n, 2) == Sent(Rpdo1(n, SWITCH_ON, VELOCITY_MODE));
    assert WordOf(n, 3) == Sent(Rpdo1(n, ENABLE_OPERATION, VELOCITY_MODE));
    if own[j] == WordOf(n, 2) { assert Answered(n, 1, own[..j]); }
    if own[j] == WordOf(n, 3) { assert Answered(n, 2, own[..j]); }
  }
}
