/** The hand-over between interlock changes and the detached workers that enable,
    disable or reset the drives: every interleaving of callbacks, workers and the
    control loop, one atomic access per step. */
module DriveHandover {

  /** Where a thread stands.  Lock to Commit is a call of updateEnableState (all
      but Lock holding the mutex); Drive to RecheckBrake is the worker it starts;
      the last three are the control loop's reset. */
  datatype Pc =
    | Lock
    | ReadTraction
    | ReadBrake(tractionOk: bool)
    | EdgeCheck(want: bool)
    | Exchange(want: bool)
    | Commit(want: bool)
    | Drive(goal: bool)
    | Release(goal: bool)
    | RecheckTraction(goal: bool)
    | RecheckBrake(goal: bool, tractionOk: bool)
    | ResetExchange
    | ResetDrive
    | ResetRelease
    | Done

  /** transition_in_progress_, with the thread that set it. */
  datatype Flag = Clear | ByTransition(tid: nat) | ByReset(tid: nat)

  datatype Mutex = Free | HeldBy(tid: nat)

  datatype Config = Config(requireTraction: bool, useBrake: bool)

  /** The interlock inputs the callbacks store; traction -1 means none received. */
  datatype World = World(traction: int, brakeEngaged: bool)

  /** What the threads share.  `committed` is the goal last applied or being
      applied.  The last two are bookkeeping.  missed: a change was dropped because
      a reset held the flag, and no call has dealt with the interlocks since.
      overridden: a reset turned the drives on although the committed goal was off,
      and no worker has driven them since. */
  datatype Shared = Shared(
    mutex: Mutex,
    flag: Flag,
    initialized: bool,
    committed: bool,
    enabled: bool,
    missed: bool,
    overridden: bool)

  datatype State = State(world: World, shared: Shared, threads: map<nat, Pc>)

  datatype Action =
    | Store(tid: nat, world: World)       // a callback stores an input, then calls updateEnableState
    | StartReset(tid: nat)                // the control loop decides to reset
    | Run(tid: nat, ok: bool, spawned: nat)

  predicate TractionOk(c: Config, w: World) { !c.requireTraction || w.traction == 1 }
  predicate BrakeOk(c: Config, w: World) { !c.useBrake || !w.brakeEngaged }

  /** computeWantEnabled */
  predicate Want(c: Config, w: World) { TractionOk(c, w) && BrakeOk(c, w) }

  /** The constructor's own call of updateEnableState.  Callbacks and the control loop
      come to life only after the constructor, when that call has committed. */
  function Init(w: World): State {
    State(w, Shared(Free, Clear, false, false, false, false, false), map[0 := Lock])
  }

  /** A callback stores one of the two inputs. */
  predicate OneInput(w: World, w': World) {
    w'.traction == w.traction || w'.brakeEngaged == w.brakeEngaged
  }

  predicate Possible(s: State, a: Action) {
    match a
    case Run(tid, _, spawned) =>
      && tid in s.threads && spawned !in s.threads && s.threads[tid] != Done
      && (s.threads[tid].Lock? ==> s.shared.mutex == Free)
    case Store(tid, w) => s.shared.initialized && tid !in s.threads && OneInput(s.world, w)
    case StartReset(tid) => s.shared.initialized && tid !in s.threads
  }

  /** Where a thread goes next (Commit also spawns a worker at Drive). */
  function StepPc(c: Config, w: World, m: Shared, pc: Pc): Pc {
    match pc
    case Lock => ReadTraction
    case ReadTraction => ReadBrake(TractionOk(c, w))
    case ReadBrake(t) => EdgeCheck(t && BrakeOk(c, w))
    case EdgeCheck(want) => if m.initialized && want == m.committed then Done else Exchange(want)
    case Exchange(want) => if m.flag == Clear then Commit(want) else Done
    case Commit(_) => Done
    case Drive(goal) => Release(goal)
    case Release(goal) => RecheckTraction(goal)
    case RecheckTraction(goal) => RecheckBrake(goal, TractionOk(c, w))
    case RecheckBrake(goal, t) => if goal != (t && BrakeOk(c, w)) then Lock else Done
    case ResetExchange => if m.flag == Clear then ResetDrive else Done
    case ResetDrive => ResetRelease
    case ResetRelease => Done
    case Done => Done
  }

  /** What the step does to the shared variables; ok is the outcome of the drive
      commands. */
  function StepShared(m: Shared, tid: nat, pc: Pc, ok: bool, spawned: nat): Shared {
    match pc
    case Lock => m.(mutex := HeldBy(tid))
    case EdgeCheck(want) =>
      if m.initialized && want == m.committed then m.(mutex := Free, missed := false) else m
    case Exchange(want) =>
      if m.flag == Clear then m.(flag := ByTransition(tid))
      else m.(mutex := Free, missed := m.missed || m.flag.ByReset?)
    case Commit(want) => Shared(Free, ByTransition(spawned), true, want, m.enabled, false, m.overridden)
    case Drive(goal) => m.(enabled := goal && ok, overridden := false)
    case Release(_) => m.(flag := Clear)
    case ResetExchange => if m.flag == Clear then m.(flag := ByReset(tid)) else m
    case ResetDrive => m.(enabled := ok, overridden := ok && !m.committed)
    case ResetRelease => m.(flag := Clear)
    case _ => m
  }

  function Next(c: Config, s: State, a: Action): State
    requires Possible(s, a)
  {
    match a
    case Store(tid, w) => State(w, s.shared, s.threads[tid := Lock])
    case StartReset(tid) => State(s.world, s.shared, s.threads[tid := ResetExchange])
    case Run(tid, ok, spawned) =>
      var pc := s.threads[tid];
      var moved := s.threads[tid := StepPc(c, s.world, s.shared, pc)];
      State(s.world, StepShared(s.shared, tid, pc, ok, spawned),
            if pc.Commit? then moved[spawned := Drive(pc.want)] else moved)
  }

  ghost predicate IsRun(c: Config, s: State, run: seq<Action>)
    decreases |run|
  {
    run == [] || (Possible(s, run[0]) && IsRun(c, Next(c, s, run[0]), run[1..]))
  }

  function After(c: Config, s: State, run: seq<Action>): State
    requires IsRun(c, s, run)
    decreases |run|
  {
    if run == [] then s else After(c, Next(c, s, run[0]), run[1..])
  }

  /* ---- invariants ---- */

  predicate InCriticalSection(pc: Pc) {
    pc.ReadTraction? || pc.ReadBrake? || pc.EdgeCheck? || pc.Exchange? || pc.Commit?
  }

  predicate Calling(pc: Pc) { pc.Lock? || InCriticalSection(pc) }

  /** Between taking the flag and giving it back. */
  predicate HoldsFlag(pc: Pc) {
    pc.Commit? || pc.Drive? || pc.Release? || pc.ResetDrive? || pc.ResetRelease?
  }

  predicate Resetting(pc: Pc) { pc.ResetDrive? || pc.ResetRelease? }

  /** A thread in the critical section is the mutex owner, one that holds the
      flag is the one that set it, and an enable or disable worker between the
      two ends of its hold works on the committed goal. */
  predicate ThreadOk(m: Shared, t: nat, pc: Pc) {
    && (InCriticalSection(pc) ==> m.mutex == HeldBy(t))
    && (HoldsFlag(pc) ==> m.flag == if Resetting(pc) then ByReset(t) else ByTransition(t))
    && match pc
       case Exchange(want) => !m.initialized || want != m.committed
       case Commit(want) => !m.initialized || want != m.committed
       case Drive(goal) => m.initialized && goal == m.committed
       case Release(goal) => m.initialized && goal == m.committed
       case _ => true
  }

  ghost predicate ThreadsOk(s: State) {
    forall t :: t in s.threads ==> ThreadOk(s.shared, t, s.threads[t])
  }

  predicate MutexOwned(s: State) {
    s.shared.mutex.HeldBy? ==>
      s.shared.mutex.tid in s.threads && InCriticalSection(s.threads[s.shared.mutex.tid])
  }

  predicate FlagOwned(s: State) {
    s.shared.flag != Clear ==>
      s.shared.flag.tid in s.threads && HoldsFlag(s.threads[s.shared.flag.tid])
  }

  predicate OwnersExist(s: State) { MutexOwned(s) && FlagOwned(s) }

  /** What a call has read is not what the interlocks now say. */
  predicate Stale(c: Config, w: World, pc: Pc) {
    match pc
    case ReadBrake(t) => t != TractionOk(c, w)
    case EdgeCheck(want) => want != Want(c, w)
    case Exchange(want) => want != Want(c, w)
    case Commit(want) => want != Want(c, w)
    case _ => false
  }

  ghost predicate Waiting(s: State) { exists t :: t in s.threads && s.threads[t].Lock? }

  ghost predicate SomeCall(s: State) { exists t :: t in s.threads && Calling(s.threads[t]) }

  /** This worker will find its goal outdated and call again. */
  predicate WillRecall(c: Config, w: World, pc: Pc) {
    match pc
    case Drive(goal) => goal != Want(c, w)
    case Release(goal) => goal != Want(c, w)
    case RecheckTraction(goal) => goal != Want(c, w)
    case RecheckBrake(goal, t) => goal != Want(c, w) && t == TractionOk(c, w)
    case _ => false
  }

  ghost predicate SomeRecall(c: Config, s: State) {
    exists t :: t in s.threads && WillRecall(c, s.world, s.threads[t])
  }

  /** The committed goal is what the interlocks ask for. */
  predicate Settled(c: Config, s: State) {
    s.shared.initialized && s.shared.committed == Want(c, s.world)
  }

  ghost predicate PendingInv(c: Config, s: State) {
    && (forall t :: t in s.threads && Stale(c, s.world, s.threads[t]) ==> Waiting(s))
    && (!Settled(c, s) ==> s.shared.missed || SomeCall(s) || SomeRecall(c, s))
    && (s.shared.missed && Settled(c, s) ==> SomeCall(s))
  }

  /** A worker is about to drive the motors. */
  predicate DrivePending(s: State) {
    s.shared.flag.ByTransition? && s.shared.flag.tid in s.threads && s.threads[s.shared.flag.tid].Drive?
  }

  /** Unless a worker is about to change that, drives that are on against the
      committed goal are on because of a reset. */
  predicate EnabledInv(s: State) {
    !DrivePending(s) ==> (s.shared.overridden <==> s.shared.enabled && !s.shared.committed)
  }

  /** Until the constructor's call has committed, it is alone. */
  ghost predicate ConstructorInv(s: State) {
    0 in s.threads && (!s.shared.initialized ==> s.threads.Keys == {0} && Calling(s.threads[0]))
  }

  ghost predicate Inv(c: Config, s: State) {
    ThreadsOk(s) && OwnersExist(s) && PendingInv(c, s) && EnabledInv(s) && ConstructorInv(s)
  }

  /* ---- preservation ---- */

  /** A step of one thread leaves every other thread in order. */
  lemma OtherOk(m: Shared, tid: nat, pc: Pc, ok: bool, spawned: nat, t: nat, other: Pc)
    requires ThreadOk(m, tid, pc) && ThreadOk(m, t, other) && t != tid
    requires pc.Lock? ==> m.mutex == Free
    ensures ThreadOk(StepShared(m, tid, pc, ok, spawned), t, other)
  {
  }

  lemma OwnOk(c: Config, w: World, m: Shared, tid: nat, pc: Pc, ok: bool, spawned: nat)
    requires ThreadOk(m, tid, pc)
    ensures ThreadOk(StepShared(m, tid, pc, ok, spawned), tid, StepPc(c, w, m, pc))
  {
    hide TractionOk, BrakeOk;
  }

  lemma ThreadsKept(c: Config, s: State, a: Action)
    requires ThreadsOk(s) && Possible(s, a)
    ensures ThreadsOk(Next(c, s, a))
  {
    hide ThreadOk, StepShared, StepPc;
    var n := Next(c, s, a);
    forall t | t in n.threads
      ensures ThreadOk(n.shared, t, n.threads[t])
    {
      if a.Run? {
        var pc := s.threads[a.tid];
        if t == a.tid {
          OwnOk(c, s.world, s.shared, a.tid, pc, a.ok, a.spawned);
        } else if t in s.threads {
          OtherOk(s.shared, a.tid, pc, a.ok, a.spawned, t, s.threads[t]);
        } else {
          SpawnOk(s.shared, a.tid, pc.want, a.ok, a.spawned);
        }
      } else if t == a.tid {
        NewOk(s.shared, t);
      }
    }
  }

  lemma SpawnOk(m: Shared, tid: nat, want: bool, ok: bool, spawned: nat)
    ensures ThreadOk(StepShared(m, tid, Commit(want), ok, spawned), spawned, Drive(want))
  {
  }

  lemma NewOk(m: Shared, t: nat)
    ensures ThreadOk(m, t, Lock) && ThreadOk(m, t, ResetExchange)
  {
  }

  lemma MutexOwnerKept(c: Config, s: State, a: Action)
    requires ThreadsOk(s) && MutexOwned(s) && Possible(s, a)
    ensures MutexOwned(Next(c, s, a))
  {
    hide TractionOk, BrakeOk, OneInput, HoldsFlag;
    if a.Run? {
      assert ThreadOk(s.shared, a.tid, s.threads[a.tid]);
    }
  }

  lemma FlagOwnerKept(c: Config, s: State, a: Action)
    requires ThreadsOk(s) && FlagOwned(s) && Possible(s, a)
    ensures FlagOwned(Next(c, s, a))
  {
    hide TractionOk, BrakeOk, OneInput, InCriticalSection;
    if a.Run? {
      assert ThreadOk(s.shared, a.tid, s.threads[a.tid]);
    }
  }

  /** Another thread waiting for the mutex is still there after the step. */
  lemma WaitingStays(c: Config, s: State, a: Action)
    requires Possible(s, a) && Waiting(s)
    requires a.Run? ==> !s.threads[a.tid].Lock?
    ensures Waiting(Next(c, s, a))
  {
    hide StepShared, TractionOk, BrakeOk;
    var t :| t in s.threads && s.threads[t].Lock?;
    assert Next(c, s, a).threads[t].Lock?;
  }

  lemma StaleKept(c: Config, s: State, a: Action)
    requires Inv(c, s) && Possible(s, a)
    ensures var n := Next(c, s, a);
            forall t :: t in n.threads && Stale(c, n.world, n.threads[t]) ==> Waiting(n)
  {
    hide StepShared, OwnersExist, TractionOk, BrakeOk, OneInput, Settled, WillRecall;
    var n := Next(c, s, a);
    if a.Store? {
      assert n.threads[a.tid].Lock?;
    } else {
      forall t | t in n.threads && Stale(c, n.world, n.threads[t])
        ensures Waiting(n)
      {
        if t in s.threads {
          assert ThreadOk(s.shared, t, s.threads[t]);
          assert Stale(c, s.world, s.threads[t]);
          WaitingStays(c, s, a);
        }
      }
    }
  }

  /** The call at `t`, or the recall at `t`, survives somebody else's step. */
  lemma OthersStay(c: Config, s: State, a: Action, t: nat)
    requires Possible(s, a) && t in s.threads && !a.Store?
    requires a.Run? ==> t != a.tid
    ensures Calling(s.threads[t]) ==> SomeCall(Next(c, s, a))
    ensures WillRecall(c, s.world, s.threads[t]) ==> SomeRecall(c, Next(c, s, a))
  {
    hide StepShared, StepPc, TractionOk, BrakeOk, Calling, WillRecall;
    assert Next(c, s, a).threads[t] == s.threads[t];
  }

  /** Giving up because the flag is taken: whoever holds it will come back, or
      the change is on record as missed. */
  lemma GivingUp(c: Config, s: State, tid: nat)
    requires ThreadsOk(s) && OwnersExist(s)
    requires tid in s.threads && s.threads[tid].Exchange?
    requires s.threads[tid].want == Want(c, s.world)
    requires s.shared.flag.ByTransition?
    ensures s.shared.flag.tid in s.threads && s.shared.flag.tid != tid
    ensures WillRecall(c, s.world, s.threads[s.shared.flag.tid])
  {
    var w := s.shared.flag.tid;
    assert ThreadOk(s.shared, w, s.threads[w]) && ThreadOk(s.shared, tid, s.threads[tid]);
  }

  lemma CallEnds(c: Config, s: State, a: Action)
    requires Inv(c, s) && Possible(s, a) && a.Run?
    requires s.threads[a.tid].EdgeCheck? || s.threads[a.tid].Exchange?
    requires !Calling(StepPc(c, s.world, s.shared, s.threads[a.tid]))
    ensures var n := Next(c, s, a);
            (!Settled(c, n) ==> n.shared.missed || SomeCall(n) || SomeRecall(c, n)) &&
            (n.shared.missed && Settled(c, n) ==> SomeCall(n))
  {
    hide WillRecall, Want, SomeRecall;
    var pc := s.threads[a.tid];
    assert ThreadOk(s.shared, a.tid, pc);
    if Stale(c, s.world, pc) {
      var t :| t in s.threads && s.threads[t].Lock?;
      OthersStay(c, s, a, t);
    } else if pc.Exchange? && s.shared.flag.ByTransition? {
      GivingUp(c, s, a.tid);
      OthersStay(c, s, a, s.shared.flag.tid);
    }
  }

  /** A worker that will call again keeps heading there. */
  lemma RecallAdvances(c: Config, w: World, m: Shared, pc: Pc)
    requires WillRecall(c, w, pc)
    ensures WillRecall(c, w, StepPc(c, w, m, pc)) || Calling(StepPc(c, w, m, pc))
  {
  }

  lemma CallsStay(c: Config, s: State, a: Action)
    requires Possible(s, a) && SomeCall(s) && !a.Store?
    requires a.Run? && Calling(s.threads[a.tid]) ==> Calling(StepPc(c, s.world, s.shared, s.threads[a.tid]))
    ensures SomeCall(Next(c, s, a))
  {
    hide Calling, StepPc, StepShared, TractionOk, BrakeOk;
    var t :| t in s.threads && Calling(s.threads[t]);
    if a.Run? && t == a.tid {
      assert Calling(Next(c, s, a).threads[t]);
    } else {
      OthersStay(c, s, a, t);
    }
  }

  lemma RecallsStay(c: Config, s: State, a: Action)
    requires Possible(s, a) && SomeRecall(c, s) && !a.Store?
    ensures SomeRecall(c, Next(c, s, a)) || SomeCall(Next(c, s, a))
  {
    hide Calling, StepPc, StepShared, WillRecall, TractionOk, BrakeOk;
    var n := Next(c, s, a);
    var t :| t in s.threads && WillRecall(c, s.world, s.threads[t]);
    if a.Run? && t == a.tid {
      RecallAdvances(c, s.world, s.shared, s.threads[t]);
      var moved := StepPc(c, s.world, s.shared, s.threads[t]);
      assert t != a.spawned;
      assert n.threads[t] == moved;
    } else {
      OthersStay(c, s, a, t);
    }
  }

  lemma CallAt(s: State, t: nat)
    requires t in s.threads && Calling(s.threads[t])
    ensures SomeCall(s)
  {
  }

  lemma RecallAt(c: Config, s: State, t: nat)
    requires t in s.threads && WillRecall(c, s.world, s.threads[t])
    ensures SomeRecall(c, s)
  {
  }

  lemma PendingKept(c: Config, s: State, a: Action)
    requires Inv(c, s) && Possible(s, a)
    ensures PendingInv(c, Next(c, s, a))
  {
    hide ThreadOk, OwnersExist, ThreadsOk, Want, OneInput, SomeCall, SomeRecall, Waiting;
    var n := Next(c, s, a);
    StaleKept(c, s, a);
    if a.Store? {
      assert n.threads[a.tid].Lock?;
      CallAt(n, a.tid);
    } else if a.Run? && s.threads[a.tid].Commit? {
      var want := s.threads[a.tid].want;
      assert n.threads[a.spawned] == Drive(want);
      if want != Want(c, n.world) {
        RecallAt(c, n, a.spawned);
      }
    } else if a.Run? && (s.threads[a.tid].EdgeCheck? || s.threads[a.tid].Exchange?)
              && !Calling(StepPc(c, s.world, s.shared, s.threads[a.tid])) {
      CallEnds(c, s, a);
    } else {
      assert n.world == s.world && n.shared.missed == s.shared.missed && Settled(c, n) == Settled(c, s);
      if SomeCall(s) { CallsStay(c, s, a); }
      if SomeRecall(c, s) { RecallsStay(c, s, a); }
    }
  }

  lemma EnabledKept(c: Config, s: State, a: Action)
    requires ThreadsOk(s) && OwnersExist(s) && EnabledInv(s) && Possible(s, a)
    ensures EnabledInv(Next(c, s, a))
  {
    hide TractionOk, BrakeOk, OneInput;
    if a.Run? {
      assert ThreadOk(s.shared, a.tid, s.threads[a.tid]);
    }
  }

  lemma ConstructorKept(c: Config, s: State, a: Action)
    requires ThreadsOk(s) && OwnersExist(s) && ConstructorInv(s) && Possible(s, a)
    ensures ConstructorInv(Next(c, s, a))
  {
    hide TractionOk, BrakeOk, OneInput;
    if a.Run? {
      assert ThreadOk(s.shared, a.tid, s.threads[a.tid]);
    }
  }

  lemma NextKeeps(c: Config, s: State, a: Action)
    requires Inv(c, s) && Possible(s, a)
    ensures Inv(c, Next(c, s, a))
  {
    hide ThreadsOk, MutexOwned, FlagOwned, PendingInv, EnabledInv, ConstructorInv, Next;
    EnabledKept(c, s, a);
    ConstructorKept(c, s, a);
    ThreadsKept(c, s, a);
    MutexOwnerKept(c, s, a);
    FlagOwnerKept(c, s, a);
    PendingKept(c, s, a);
  }

  lemma {:induction false} RunKeeps(c: Config, s: State, run: seq<Action>)
    requires Inv(c, s) && IsRun(c, s, run)
    ensures Inv(c, After(c, s, run))
    decreases |run|
  {
    hide Inv, Next, Possible;
    if run != [] {
      NextKeeps(c, s, run[0]);
      RunKeeps(c, Next(c, s, run[0]), run[1..]);
    }
  }

  lemma InitInv(c: Config, w: World)
    ensures Inv(c, Init(w))
  {
    var s := Init(w);
    assert s.threads[0].Lock?;
  }

  /* ---- what every run guarantees ---- */

  /** In every interleaving at most one enable, disable or reset worker stands
      between taking and giving back the transition flag. */
  lemma AtMostOneWorker(c: Config, w: World, run: seq<Action>, t: nat, u: nat)
    requires IsRun(c, Init(w), run)
    requires var n := After(c, Init(w), run);
             t in n.threads && u in n.threads && HoldsFlag(n.threads[t]) && HoldsFlag(n.threads[u])
    ensures t == u
  {
    hide Init, After, PendingInv, OwnersExist;
    InitInv(c, w);
    RunKeeps(c, Init(w), run);
    var n := After(c, Init(w), run);
    assert ThreadOk(n.shared, t, n.threads[t]) && ThreadOk(n.shared, u, n.threads[u]);
  }

  predicate Quiet(s: State) { forall t :: t in s.threads ==> s.threads[t] == Done }

  /** Once everything has finished: the committed goal is what the interlocks ask for
      exactly when no change was dropped in favour of a reset, and the drives are on
      against the interlocks exactly when they are on and either a change was
      dropped or a reset overrode the committed goal, but not both. */
  lemma QuietIsSettled(c: Config, w: World, run: seq<Action>)
    requires IsRun(c, Init(w), run) && Quiet(After(c, Init(w), run))
    ensures var n := After(c, Init(w), run);
            && n.shared.flag == Clear && n.shared.mutex == Free && n.shared.initialized
            && (Settled(c, n) <==> !n.shared.missed)
            && (n.shared.enabled && !Want(c, n.world) <==>
                  n.shared.enabled && n.shared.missed != n.shared.overridden)
  {
    hide Init, After, ThreadsOk, Want;
    InitInv(c, w);
    RunKeeps(c, Init(w), run);
    var n := After(c, Init(w), run);
    assert !SomeCall(n) && !SomeRecall(c, n);
    assert n.threads[0] == Done;
  }

  /* ---- runs without a reset ---- */

  predicate ResetFree(run: seq<Action>) { forall i :: 0 <= i < |run| ==> !run[i].StartReset? }

  predicate ResetPc(pc: Pc) { pc.ResetExchange? || pc.ResetDrive? || pc.ResetRelease? }

  /** Without a reset nothing is missed and nothing is overridden. */
  ghost predicate PlainInv(s: State) {
    && !s.shared.missed && !s.shared.overridden
    && (forall t :: t in s.threads ==> !ResetPc(s.threads[t]))
  }

  lemma PlainKeeps(c: Config, s: State, a: Action)
    requires ThreadsOk(s) && OwnersExist(s) && PlainInv(s) && Possible(s, a) && !a.StartReset?
    ensures PlainInv(Next(c, s, a))
  {
    hide TractionOk, BrakeOk, OneInput;
    if a.Run? {
      assert ThreadOk(s.shared, a.tid, s.threads[a.tid]);
    }
  }

  lemma {:induction false} RunKeepsPlain(c: Config, s: State, run: seq<Action>)
    requires Inv(c, s) && PlainInv(s) && IsRun(c, s, run) && ResetFree(run)
    ensures PlainInv(After(c, s, run))
    decreases |run|
  {
    hide PlainInv, Next, Possible, PendingInv, ThreadsOk, OwnersExist;
    if run != [] {
      PlainKeeps(c, s, run[0]);
      NextKeeps(c, s, run[0]);
      RunKeepsPlain(c, Next(c, s, run[0]), run[1..]);
    }
  }

  /* ---- what `enabled` stands for ---- */

  lemma {:induction false} RunPrefix(c: Config, s: State, run: seq<Action>, k: nat)
    requires IsRun(c, s, run) && k <= |run|
    ensures IsRun(c, s, run[..k])
    ensures k < |run| ==> Possible(After(c, s, run[..k]), run[k])
    ensures k < |run| ==>
              IsRun(c, s, run[..k + 1]) && After(c, s, run[..k + 1]) == Next(c, After(c, s, run[..k]), run[k])
    decreases k
  {
    hide Next, Possible;
    if k == 0 {
      assert run[..0] == [];
      if run != [] {
        assert run[..1][0] == run[0] && run[..1][1..] == [];
        assert IsRun(c, Next(c, s, run[0]), []);
      }
    } else {
      var rest := run[1..];
      RunPrefix(c, Next(c, s, run[0]), rest, k - 1);
      assert run[..k][0] == run[0] && run[..k][1..] == rest[..k - 1];
      if k < |run| {
        assert run[..k + 1][0] == run[0] && run[..k + 1][1..] == rest[..k];
        assert rest[k - 1] == run[k];
      }
    }
  }

  /** What a step does to the drives: nothing, or turn them on or off with this outcome. */
  datatype Driven = Nothing | Drove(on: bool, ok: bool)

  function DrivenBy(s: State, a: Action): Driven {
    if !a.Run? || a.tid !in s.threads then Nothing
    else
      match s.threads[a.tid]
      case Drive(goal) => Drove(goal, a.ok)
      case ResetDrive => Drove(true, a.ok)
      case _ => Nothing
  }

  /** The last time the run drives them. */
  function LastDriven(c: Config, s: State, run: seq<Action>): Driven
    requires IsRun(c, s, run)
    decreases |run|
  {
    if run == [] then Nothing
    else
      var later := LastDriven(c, Next(c, s, run[0]), run[1..]);
      if later != Nothing then later else DrivenBy(s, run[0])
  }

  /** Step k drives them and no later step does. */
  ghost predicate LastDriveAt(c: Config, s: State, run: seq<Action>, k: nat, d: Driven)
    requires IsRun(c, s, run)
  {
    && k < |run| && d.Drove? && StepDrives(c, s, run, k) == d
    && forall j: nat :: k < j < |run| ==> StepDrives(c, s, run, j) == Nothing
  }

  ghost function StepDrives(c: Config, s: State, run: seq<Action>, k: nat): Driven
    requires IsRun(c, s, run) && k < |run|
  {
    RunPrefix(c, s, run, k);
    DrivenBy(After(c, s, run[..k]), run[k])
  }

  /** A step shifted by the first of the run. */
  lemma StepDrivesLater(c: Config, s: State, run: seq<Action>, k: nat)
    requires IsRun(c, s, run) && 0 < k < |run|
    ensures StepDrives(c, s, run, k) == StepDrives(c, Next(c, s, run[0]), run[1..], k - 1)
  {
    hide Next, Possible, DrivenBy;
    RunPrefix(c, s, run, k);
    assert run[..k][0] == run[0] && run[..k][1..] == run[1..][..k - 1];
  }

  /** LastDriven is the outcome of the last step that drives them. */
  lemma {:induction false} LastDrivenIsLast(c: Config, s: State, run: seq<Action>)
    requires IsRun(c, s, run)
    ensures if LastDriven(c, s, run) == Nothing
            then forall k: nat :: k < |run| ==> StepDrives(c, s, run, k) == Nothing
            else exists k: nat :: LastDriveAt(c, s, run, k, LastDriven(c, s, run))
    decreases |run|
  {
    if run != [] {
      hide Next, Possible, DrivenBy;
      var t, rest := Next(c, s, run[0]), run[1..];
      LastDrivenIsLast(c, t, rest);
      assert run[..0] == [] && StepDrives(c, s, run, 0) == DrivenBy(s, run[0]);
      forall k: nat | 0 < k < |run|
        ensures StepDrives(c, s, run, k) == StepDrives(c, t, rest, k - 1)
      {
        StepDrivesLater(c, s, run, k);
      }
      if LastDriven(c, t, rest) != Nothing {
        var k: nat :| LastDriveAt(c, t, rest, k, LastDriven(c, t, rest));
        assert LastDriveAt(c, s, run, k + 1, LastDriven(c, s, run));
      } else if DrivenBy(s, run[0]) != Nothing {
        assert LastDriveAt(c, s, run, 0, LastDriven(c, s, run));
      }
    }
  }

  lemma StepEnables(c: Config, s: State, a: Action)
    requires Possible(s, a)
    ensures Next(c, s, a).shared.enabled
            == match DrivenBy(s, a) case Nothing => s.shared.enabled case Drove(on, ok) => on && ok
  {
    hide TractionOk, BrakeOk, OneInput;
  }

  lemma {:induction false} EnabledFollows(c: Config, s: State, run: seq<Action>)
    requires IsRun(c, s, run)
    ensures After(c, s, run).shared.enabled
            == match LastDriven(c, s, run) case Nothing => s.shared.enabled case Drove(on, ok) => on && ok
    decreases |run|
  {
    hide Next, Possible, DrivenBy;
    if run != [] {
      StepEnables(c, s, run[0]);
      EnabledFollows(c, Next(c, s, run[0]), run[1..]);
    }
  }

  /** In every interleaving the drives are marked enabled exactly when some step drove
      them, and the last that did turned them on and succeeded. */
  lemma EnabledIsLastDrive(c: Config, w: World, run: seq<Action>)
    requires IsRun(c, Init(w), run)
    ensures After(c, Init(w), run).shared.enabled
            <==> exists k: nat :: LastDriveAt(c, Init(w), run, k, Drove(true, true))
  {
    hide After, Init, LastDriven;
    var s := Init(w);
    assert !s.shared.enabled by { NotYetEnabled(w); }
    EnabledFollows(c, s, run);
    LastDrivenIsLast(c, s, run);
    forall k: nat, d | LastDriveAt(c, s, run, k, d)
      ensures LastDriven(c, s, run) == d
    {
      SameLast(c, s, run, k, d);
    }
  }

  lemma NotYetEnabled(w: World)
    ensures !Init(w).shared.enabled
  {
  }

  lemma SameLast(c: Config, s: State, run: seq<Action>, k: nat, d: Driven)
    requires IsRun(c, s, run) && LastDriveAt(c, s, run, k, d)
    ensures LastDriven(c, s, run) == d
  {
    hide IsRun, LastDriven, StepDrives;
    LastDrivenIsLast(c, s, run);
    assert StepDrives(c, s, run, k) != Nothing;
    var m: nat :| LastDriveAt(c, s, run, m, LastDriven(c, s, run));
  }

  /** A run whose drive commands all fail never has them enabled. */
  lemma FailuresNeverEnable(c: Config, w: World, run: seq<Action>)
    requires IsRun(c, Init(w), run) && forall k :: 0 <= k < |run| && run[k].Run? ==> !run[k].ok
    ensures !After(c, Init(w), run).shared.enabled
  {
    hide IsRun, After, Init;
    EnabledIsLastDrive(c, w, run);
  }

  /* ---- no change is lost ---- */

  /** Without a reset, the drives were last driven to the committed goal, unless a worker
      is about to. */
  predicate GoalDriven(s: State, last: Driven) {
    s.shared.initialized && !DrivePending(s) ==> last.Drove? && last.on == s.shared.committed
  }

  function Update(last: Driven, d: Driven): Driven { if d == Nothing then last else d }

  lemma GoalDrivenKept(c: Config, s: State, a: Action, last: Driven)
    requires ThreadsOk(s) && OwnersExist(s) && PlainInv(s) && GoalDriven(s, last) && Possible(s, a) && !a.StartReset?
    ensures GoalDriven(Next(c, s, a), Update(last, DrivenBy(s, a)))
  {
    hide TractionOk, BrakeOk, OneInput;
    if a.Run? {
      assert ThreadOk(s.shared, a.tid, s.threads[a.tid]);
    }
  }

  lemma {:induction false} RunDrivesGoal(c: Config, s: State, run: seq<Action>, last: Driven)
    requires Inv(c, s) && PlainInv(s) && GoalDriven(s, last) && IsRun(c, s, run) && ResetFree(run)
    ensures GoalDriven(After(c, s, run), Update(last, LastDriven(c, s, run)))
    decreases |run|
  {
    hide PlainInv, Next, Possible, PendingInv, ThreadsOk, OwnersExist, GoalDriven, DrivenBy;
    if run != [] {
      GoalDrivenKept(c, s, run[0], last);
      PlainKeeps(c, s, run[0]);
      NextKeeps(c, s, run[0]);
      RunDrivesGoal(c, Next(c, s, run[0]), run[1..], Update(last, DrivenBy(s, run[0])));
    }
  }

  /** No interlock change is lost: in a run without a reset, once all calls and workers
      have finished, the committed goal is what the interlocks now ask for, the drives
      were last driven to it, and they are enabled exactly if the interlocks allow it and
      that succeeded. */
  lemma NoChangeIsLost(c: Config, w: World, run: seq<Action>)
    requires IsRun(c, Init(w), run) && ResetFree(run) && Quiet(After(c, Init(w), run))
    ensures var n := After(c, Init(w), run);
            && n.shared.initialized
            && (n.shared.committed <==>
                  (c.requireTraction ==> n.world.traction == 1) && (c.useBrake ==> !n.world.brakeEngaged))
            && exists k: nat, ok ::
                 LastDriveAt(c, Init(w), run, k, Drove(n.shared.committed, ok))
                 && n.shared.enabled == (n.shared.committed && ok)
  {
    hide After, Inv, LastDriven, LastDriveAt, Init;
    var n := After(c, Init(w), run);
    InitInv(c, w);
    InitPlain(w);
    QuietIsSettled(c, w, run);
    RunDrivesGoal(c, Init(w), run, Nothing);
    EnabledFollows(c, Init(w), run);
    LastDrivenIsLast(c, Init(w), run);
    RunKeepsPlain(c, Init(w), run);
    assert Settled(c, n);
    var d := LastDriven(c, Init(w), run);
    assert d.Drove? && d.on == n.shared.committed;
    var k: nat :| LastDriveAt(c, Init(w), run, k, d);
    assert d == Drove(n.shared.committed, d.ok);
  }

  lemma InitPlain(w: World)
    ensures PlainInv(Init(w)) && GoalDriven(Init(w), Nothing) && !Init(w).shared.enabled
  {
  }

  /* ---- a reset can lose a change ---- */

  lemma {:induction false} RunAppend(c: Config, s: State, first: seq<Action>, second: seq<Action>)
    requires IsRun(c, s, first) && IsRun(c, After(c, s, first), second)
    ensures IsRun(c, s, first + second)
    ensures After(c, s, first + second) == After(c, After(c, s, first), second)
    decreases |first|
  {
    hide Next, Possible;
    if first == [] {
      assert first + second == second;
    } else {
      RunAppend(c, Next(c, s, first[0]), first[1..], second);
      assert (first + second)[0] == first[0] && (first + second)[1..] == first[1..] + second;
    }
  }

  /** A run that leads to `s`, prolonged by one action that leads to `n`. */
  lemma Prolong(c: Config, start: State, run: seq<Action>, s: State, a: Action, n: State)
    requires IsRun(c, start, run) && After(c, start, run) == s && Possible(s, a)
    requires Next(c, s, a).world == n.world && Next(c, s, a).shared == n.shared
    requires Next(c, s, a).threads == n.threads
    ensures IsRun(c, start, run + [a]) && After(c, start, run + [a]) == n
  {
    hide Possible;
    assert [a][1..] == [];
    assert IsRun(c, s, [a]) && After(c, s, [a]) == n;
    RunAppend(c, start, run, [a]);
  }

  /** Threads numbered from 0. */
  function Standing(w: World, m: Shared, pcs: seq<Pc>): State {
    State(w, m, map t: nat | t < |pcs| :: pcs[t])
  }

  lemma OneStep(c: Config, start: State, run: seq<Action>, w: World, m: Shared, pcs: seq<Pc>, tid: nat)
    returns (run': seq<Action>, m': Shared, pcs': seq<Pc>)
    requires tid < |pcs| && pcs[tid] != Done && (pcs[tid].Lock? ==> m.mutex == Free)
    requires IsRun(c, start, run) && After(c, start, run) == Standing(w, m, pcs)
    ensures run' == run + [Run(tid, true, |pcs|)]
    ensures m' == StepShared(m, tid, pcs[tid], true, |pcs|)
    ensures pcs' == pcs[tid := StepPc(c, w, m, pcs[tid])]
                    + if pcs[tid].Commit? then [Drive(pcs[tid].want)] else []
    ensures IsRun(c, start, run') && After(c, start, run') == Standing(w, m', pcs')
  {
    hide StepPc, StepShared, IsRun, After;
    var a := Run(tid, true, |pcs|);
    run' := run + [a];
    m' := StepShared(m, tid, pcs[tid], true, |pcs|);
    pcs' := pcs[tid := StepPc(c, w, m, pcs[tid])] + if pcs[tid].Commit? then [Drive(pcs[tid].want)] else [];
    var s := Standing(w, m, pcs);
    assert Next(c, s, a).threads == Standing(w, m', pcs').threads;
    Prolong(c, start, run, s, a, Standing(w, m', pcs'));
  }

  const WATCHED := Config(true, false)
  const ON := World(1, false)
  const OFF := World(0, false)

  lemma NothingYet()
    ensures IsRun(WATCHED, Init(ON), [])
    ensures After(WATCHED, Init(ON), [])
            == Standing(ON, Shared(Free, Clear, false, false, false, false, false), [Lock])
  {
    assert Init(ON).threads == Standing(ON, Init(ON).shared, [Lock]).threads;
  }

  /** Call 0 finds the interlock satisfied. */
  lemma ReadingRun() returns (run: seq<Action>)
    ensures IsRun(WATCHED, Init(ON), run)
    ensures After(WATCHED, Init(ON), run)
            == Standing(ON, Shared(HeldBy(0), Clear, false, false, false, false, false), [Exchange(true)])
  {
    hide IsRun, After, Init, Standing;
    var c, s := WATCHED, Init(ON);
    var m, pcs := Shared(Free, Clear, false, false, false, false, false), [Lock];
    run := [];
    NothingYet();
    run, m, pcs := OneStep(c, s, run, ON, m, pcs, 0);
    assert pcs == [ReadTraction];
    run, m, pcs := OneStep(c, s, run, ON, m, pcs, 0);
    assert pcs == [ReadBrake(true)];
    run, m, pcs := OneStep(c, s, run, ON, m, pcs, 0);
    assert pcs == [EdgeCheck(true)];
    run, m, pcs := OneStep(c, s, run, ON, m, pcs, 0);
    assert pcs == [Exchange(true)];
  }

  /** It takes the flag, commits, and starts worker 1. */
  lemma CommittingRun() returns (run: seq<Action>)
    ensures IsRun(WATCHED, Init(ON), run)
    ensures After(WATCHED, Init(ON), run)
            == Standing(ON, Shared(Free, ByTransition(1), true, true, false, false, false), [Done, Drive(true)])
  {
    hide IsRun, After, Init, Standing;
    var c, s := WATCHED, Init(ON);
    run := ReadingRun();
    var m, pcs := Shared(HeldBy(0), Clear, false, false, false, false, false), [Exchange(true)];
    run, m, pcs := OneStep(c, s, run, ON, m, pcs, 0);
    assert pcs == [Commit(true)];
    run, m, pcs := OneStep(c, s, run, ON, m, pcs, 0);
    assert pcs == [Done, Drive(true)];
  }

  /** Worker 1 enables the drives and finds nothing changed. */
  lemma EnablingRun() returns (run: seq<Action>)
    ensures IsRun(WATCHED, Init(ON), run)
    ensures After(WATCHED, Init(ON), run)
            == Standing(ON, Shared(Free, Clear, true, true, true, false, false), [Done, Done])
  {
    hide IsRun, After, Init;
    var c, s := WATCHED, Init(ON);
    run := CommittingRun();
    var m, pcs := Shared(Free, ByTransition(1), true, true, false, false, false), [Done, Drive(true)];
    run, m, pcs := OneStep(c, s, run, ON, m, pcs, 1);
    assert pcs == [Done, Release(true)];
    run, m, pcs := OneStep(c, s, run, ON, m, pcs, 1);
    assert pcs == [Done, RecheckTraction(true)];
    run, m, pcs := OneStep(c, s, run, ON, m, pcs, 1);
    assert pcs == [Done, RecheckBrake(true, true)];
    run, m, pcs := OneStep(c, s, run, ON, m, pcs, 1);
    assert pcs == [Done, Done];
  }

  /** After `before`, the run goes on with the control loop starting reset 2. */
  predicate ResetFollows(before: seq<Action>, run: seq<Action>) {
    before + [StartReset(2)] <= run
  }

  /** A quiet state that meets the interlock and the flag guard the control loop checks
      before a reset; its guards on the drives' state and on the time since the last try
      are not modelled. */
  predicate MayReset(s: State) {
    Want(WATCHED, s.world) && s.shared.flag == Clear && Quiet(s)
  }

  /** The control loop starts reset 2 with the interlocks satisfied and the flag
      clear; while it resets the drives, callback 3 stores that the interlock opened. */
  lemma InterruptedRun() returns (before: seq<Action>, run: seq<Action>)
    ensures IsRun(WATCHED, Init(ON), before) && IsRun(WATCHED, Init(ON), run)
    ensures ResetFollows(before, run)
    ensures MayReset(After(WATCHED, Init(ON), before))
    ensures After(WATCHED, Init(ON), run)
            == Standing(OFF, Shared(Free, ByReset(2), true, true, true, false, false), [Done, Done, ResetDrive, Lock])
  {
    hide IsRun, After, Init;
    var c, s := WATCHED, Init(ON);
    before := EnablingRun();
    var m := Shared(Free, Clear, true, true, true, false, false);
    var b, r := Standing(ON, m, [Done, Done]), Standing(ON, m, [Done, Done, ResetExchange]);
    assert Next(c, b, StartReset(2)).threads == r.threads;
    Prolong(c, s, before, b, StartReset(2), r);
    run := before + [StartReset(2)];
    var pcs := [Done, Done, ResetExchange];
    run, m, pcs := OneStep(c, s, run, ON, m, pcs, 2);
    assert pcs == [Done, Done, ResetDrive];
    var d, e := Standing(ON, m, pcs), Standing(OFF, m, pcs + [Lock]);
    assert Next(c, d, Store(3, OFF)).threads == e.threads;
    Prolong(c, s, run, d, Store(3, OFF), e);
    run := run + [Store(3, OFF)];
    assert pcs + [Lock] == [Done, Done, ResetDrive, Lock];
  }

  /** The callback's call finds the flag taken and gives up. */
  lemma DroppedRun() returns (before: seq<Action>, run: seq<Action>)
    ensures IsRun(WATCHED, Init(ON), before) && IsRun(WATCHED, Init(ON), run)
    ensures ResetFollows(before, run)
    ensures MayReset(After(WATCHED, Init(ON), before))
    ensures After(WATCHED, Init(ON), run)
            == Standing(OFF, Shared(Free, ByReset(2), true, true, true, true, false), [Done, Done, ResetDrive, Done])
  {
    hide IsRun, After, Init;
    var c, s := WATCHED, Init(ON);
    before, run := InterruptedRun();
    var m, pcs := Shared(Free, ByReset(2), true, true, true, false, false), [Done, Done, ResetDrive, Lock];
    run, m, pcs := OneStep(c, s, run, OFF, m, pcs, 3);
    assert pcs == [Done, Done, ResetDrive, ReadTraction];
    run, m, pcs := OneStep(c, s, run, OFF, m, pcs, 3);
    assert pcs == [Done, Done, ResetDrive, ReadBrake(false)];
    run, m, pcs := OneStep(c, s, run, OFF, m, pcs, 3);
    assert pcs == [Done, Done, ResetDrive, EdgeCheck(false)];
    run, m, pcs := OneStep(c, s, run, OFF, m, pcs, 3);
    assert pcs == [Done, Done, ResetDrive, Exchange(false)];
    run, m, pcs := OneStep(c, s, run, OFF, m, pcs, 3);
    assert pcs == [Done, Done, ResetDrive, Done];
  }

  /** A reset can lose an interlock change: here it starts in a quiet state that
      meets the interlock and the flag guard, and ends in a quiet state with the drives
      enabled although the interlock is open. */
  lemma ResetLosesAChange() returns (before: seq<Action>, run: seq<Action>)
    ensures IsRun(WATCHED, Init(ON), before) && IsRun(WATCHED, Init(ON), run)
    ensures ResetFollows(before, run)
    ensures MayReset(After(WATCHED, Init(ON), before))
    ensures var n := After(WATCHED, Init(ON), run);
            Quiet(n) && n.shared.missed && n.shared.enabled && !Want(WATCHED, n.world) && !Settled(WATCHED, n)
  {
    hide IsRun, After, Init;
    var c, s := WATCHED, Init(ON);
    before, run := DroppedRun();
    var m, pcs := Shared(Free, ByReset(2), true, true, true, true, false), [Done, Done, ResetDrive, Done];
    run, m, pcs := OneStep(c, s, run, OFF, m, pcs, 2);
    assert pcs == [Done, Done, ResetRelease, Done];
    run, m, pcs := OneStep(c, s, run, OFF, m, pcs, 2);
    assert pcs == [Done, Done, Done, Done];
  }

  /** Reset 2 is decided on while the interlock is closed; before its exchange,
      callback 3 reports that it opened and commits to turning the drives off. */
  lemma OvertakenRun() returns (before: seq<Action>, run: seq<Action>)
    ensures IsRun(WATCHED, Init(ON), before) && IsRun(WATCHED, Init(ON), run)
    ensures ResetFollows(before, run)
    ensures MayReset(After(WATCHED, Init(ON), before))
    ensures After(WATCHED, Init(ON), run)
            == Standing(OFF, Shared(Free, Clear, true, true, true, false, false), [Done, Done, ResetExchange, Lock])
  {
    hide IsRun, After, Init;
    var c, s := WATCHED, Init(ON);
    before := EnablingRun();
    var m := Shared(Free, Clear, true, true, true, false, false);
    var b, r := Standing(ON, m, [Done, Done]), Standing(ON, m, [Done, Done, ResetExchange]);
    assert Next(c, b, StartReset(2)).threads == r.threads;
    Prolong(c, s, before, b, StartReset(2), r);
    run := before + [StartReset(2)];
    var e := Standing(OFF, m, [Done, Done, ResetExchange, Lock]);
    assert Next(c, r, Store(3, OFF)).threads == e.threads;
    Prolong(c, s, run, r, Store(3, OFF), e);
    run := run + [Store(3, OFF)];
  }

  lemma OvertakenCall() returns (before: seq<Action>, run: seq<Action>)
    ensures IsRun(WATCHED, Init(ON), before) && IsRun(WATCHED, Init(ON), run)
    ensures ResetFollows(before, run)
    ensures MayReset(After(WATCHED, Init(ON), before))
    ensures After(WATCHED, Init(ON), run)
            == Standing(OFF, Shared(HeldBy(3), ByTransition(3), true, true, true, false, false),
                        [Done, Done, ResetExchange, Commit(false)])
  {
    hide IsRun, After, Init;
    var c, s := WATCHED, Init(ON);
    before, run := OvertakenRun();
    var m, pcs := Shared(Free, Clear, true, true, true, false, false), [Done, Done, ResetExchange, Lock];
    run, m, pcs := OneStep(c, s, run, OFF, m, pcs, 3);
    assert pcs == [Done, Done, ResetExchange, ReadTraction];
    run, m, pcs := OneStep(c, s, run, OFF, m, pcs, 3);
    assert pcs == [Done, Done, ResetExchange, ReadBrake(false)];
    run, m, pcs := OneStep(c, s, run, OFF, m, pcs, 3);
    assert pcs == [Done, Done, ResetExchange, EdgeCheck(false)];
    run, m, pcs := OneStep(c, s, run, OFF, m, pcs, 3);
    assert pcs == [Done, Done, ResetExchange, Exchange(false)];
    run, m, pcs := OneStep(c, s, run, OFF, m, pcs, 3);
    assert pcs == [Done, Done, ResetExchange, Commit(false)];
  }

  /** Worker 4 turns the drives off. */
  lemma DisabledRun() returns (before: seq<Action>, run: seq<Action>)
    ensures IsRun(WATCHED, Init(ON), before) && IsRun(WATCHED, Init(ON), run)
    ensures ResetFollows(before, run)
    ensures MayReset(After(WATCHED, Init(ON), before))
    ensures After(WATCHED, Init(ON), run)
            == Standing(OFF, Shared(Free, Clear, true, false, false, false, false),
                        [Done, Done, ResetExchange, Done, Done])
  {
    hide IsRun, After, Init;
    var c, s := WATCHED, Init(ON);
    before, run := OvertakenCall();
    var m := Shared(HeldBy(3), ByTransition(3), true, true, true, false, false);
    var pcs := [Done, Done, ResetExchange, Commit(false)];
    run, m, pcs := OneStep(c, s, run, OFF, m, pcs, 3);
    assert pcs == [Done, Done, ResetExchange, Done, Drive(false)];
    run, m, pcs := OneStep(c, s, run, OFF, m, pcs, 4);
    assert pcs == [Done, Done, ResetExchange, Done, Release(false)];
    run, m, pcs := OneStep(c, s, run, OFF, m, pcs, 4);
    assert pcs == [Done, Done, ResetExchange, Done, RecheckTraction(false)];
    run, m, pcs := OneStep(c, s, run, OFF, m, pcs, 4);
    assert pcs == [Done, Done, ResetExchange, Done, RecheckBrake(false, false)];
    run, m, pcs := OneStep(c, s, run, OFF, m, pcs, 4);
    assert pcs == [Done, Done, ResetExchange, Done, Done];
  }

  /** A late reset overrides a change that was dealt with: nothing is missed and the
      committed goal is right, yet the drives end enabled with the interlock open. */
  lemma ResetOverridesAChange() returns (before: seq<Action>, run: seq<Action>)
    ensures IsRun(WATCHED, Init(ON), before) && IsRun(WATCHED, Init(ON), run)
    ensures ResetFollows(before, run)
    ensures MayReset(After(WATCHED, Init(ON), before))
    ensures var n := After(WATCHED, Init(ON), run);
            && Quiet(n) && Settled(WATCHED, n) && !n.shared.missed && n.shared.overridden
            && n.shared.enabled && !Want(WATCHED, n.world)
  {
    hide IsRun, After, Init;
    var c, s := WATCHED, Init(ON);
    before, run := DisabledRun();
    var m, pcs := Shared(Free, Clear, true, false, false, false, false), [Done, Done, ResetExchange, Done, Done];
    run, m, pcs := OneStep(c, s, run, OFF, m, pcs, 2);
    assert pcs == [Done, Done, ResetDrive, Done, Done];
    run, m, pcs := OneStep(c, s, run, OFF, m, pcs, 2);
    assert pcs == [Done, Done, ResetRelease, Done, Done];
    run, m, pcs := OneStep(c, s, run, OFF, m, pcs, 2);
    assert pcs == [Done, Done, Done, Done, Done];
  }
}
