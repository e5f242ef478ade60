/** Progress, shutdown, and the operations that the drain loop loses. */
module NsBufferProgress {
  import opened Common
  import opened EnvModel
  import opened NsBuffer
  import opened NsBufferInvariant
  import opened NsBufferPrepSteps
  import opened NsBufferClientSteps

  /** How many steps the prepare thread can still take before it finishes one more operation. */
  function Phase(s: State): nat {
    match s.prep
    case QAsleep => 19
    case LoopTop => 18
    case QLock => if s.draining then 14 else 17
    case QWake => 16
    case QCheck => if s.draining then 13 else 15
    case FindLock(_) => 12
    case Find(_) => 11
    case LinkLock(_, _) => 10
    case Link(_, _) => 9
    case ExecLock(_, _) => 8
    case Exec(_, _) => 7
    case UnlinkLock(_, _) => 6
    case Unlink(_, _) => 5
    case DoneLock(_) => 4
    case Done(_) => 3
    case Exited => 0
  }

  /** A bound on the steps of the prepare thread until the first `n` arrivals are finished. */
  function Rank(s: State, n: int): int {
    (n - Finished(s)) * 20 + Phase(s)
  }

  function PrepSteps(steps: seq<Step>): nat {
    if steps == [] then 0 else PrepSteps(steps[1..]) + if steps[0] == PrepStep then 1 else 0
  }

  /** The state that `steps` lead to from `s`. */
  function RunFrom(cfg: Config, s: State, steps: seq<Step>): Option<State>
    decreases |steps|
  {
    if steps == [] then Some(s)
    else
      var s1 := Next(cfg, s, steps[0]);
      if s1.None? then None else RunFrom(cfg, s1.value, steps[1..])
  }

  /** The prepare thread works on, or will work on, the i-th arrival. */
  predicate Pending(s: State, i: nat) {
    Finished(s) <= i < |s.arrived| && s.prep != Exited
  }

  /** What a step of the prepare thread does to the fields that the rank depends on. */
  ghost predicate Descends(s: State, s': State, n: int) {
    && s'.arrived == s.arrived
    && s'.lost == s.lost
    && s'.req == s.req
    && s'.running == s.running
    && Finished(s') >= Finished(s)
    && (s'.prep == Exited ==> s.prep == QCheck && s.taken == |s.arrived|)
    && (Rank(s', n) < Rank(s, n) || (s.prep == QCheck && s.qhead.None? && s.running))
  }

  lemma LockingDescends(cfg: Config, s: State, n: int)
    requires PrepWants(s.prep) && PrepNext(cfg, s).Some?
    ensures Descends(s, PrepNext(cfg, s).value, n)
  {
    var (m, pc) := PrepGoal(s.prep);
    assert PrepNext(cfg, s) == PrepLock(s, m, pc);
  }

  lemma CheckDescends(cfg: Config, s: State, n: int)
    requires s.prep == QCheck && s.taken <= |s.arrived|
    requires s.qhead.Some? ==> s.qhead.value in s.ops
    requires s.qhead.None? ==> s.taken == |s.arrived|
    ensures Descends(s, PrepCheck(s), n)
  {
    if s.qhead.Some? {
      TakingDescends(s, n);
    } else {
      EmptyDescends(s, n);
    }
  }

  lemma TakingDescends(s: State, n: int)
    requires s.prep == QCheck && s.taken <= |s.arrived|
    requires s.qhead.Some? && s.qhead.value in s.ops
    ensures Descends(s, PrepCheck(s), n)
  {
  }

  lemma EmptyDescends(s: State, n: int)
    requires s.prep == QCheck && s.taken == |s.arrived| && s.qhead.None?
    ensures Descends(s, PrepCheck(s), n)
  {
  }

  lemma WorkDescends(cfg: Config, s: State, n: int)
    requires PrepNext(cfg, s).Some? && !PrepWants(s.prep) && s.prep != QCheck
    requires s.prep == LoopTop ==> !s.draining
    ensures Descends(s, PrepNext(cfg, s).value, n)
  {
    hide Descends, PrepNext, WakeReaders, WakeWriter;
    match s.prep
    case LoopTop => EarlyDescends(cfg, s, n);
    case Find(_) => EarlyDescends(cfg, s, n);
    case Link(_, _) => EarlyDescends(cfg, s, n);
    case Exec(_, _) => LateDescends(cfg, s, n);
    case Unlink(_, _) => LateDescends(cfg, s, n);
    case Done(_) => LateDescends(cfg, s, n);
    case _ => IdleNeverSteps(cfg, s);
  }

  lemma IdleNeverSteps(cfg: Config, s: State)
    requires !PrepWants(s.prep) && s.prep != QCheck && PrepNext(cfg, s).Some?
    ensures s.prep.LoopTop? || s.prep.Find? || s.prep.Link? || s.prep.Exec? || s.prep.Unlink? || s.prep.Done?
  {
  }

  lemma EarlyDescends(cfg: Config, s: State, n: int)
    requires s.prep.LoopTop? || s.prep.Find? || s.prep.Link?
    requires PrepNext(cfg, s).Some? && (s.prep == LoopTop ==> !s.draining)
    ensures Descends(s, PrepNext(cfg, s).value, n)
  {
    hide WakeReaders, WakeWriter;
  }

  lemma LateDescends(cfg: Config, s: State, n: int)
    requires s.prep.Exec? || s.prep.Unlink? || s.prep.Done?
    requires PrepNext(cfg, s).Some?
    ensures Descends(s, PrepNext(cfg, s).value, n)
  {
    hide WakeReaders, WakeWriter;
  }

  /** A step of the prepare thread: nothing arrives, and the rank goes down. */
  lemma PrepDescends(cfg: Config, s: State, n: int)
    requires Invariant(cfg, s) && PrepNext(cfg, s).Some?
    ensures Descends(s, PrepNext(cfg, s).value, n)
  {
    hide LockInv, OpInv, CurInv, RequestInv, SymInv, WriterInv, ReaderInv, DrainInv, OneOwner, EffectInv, EffectIdInv,
         ResultInv, HistInv;
    hide Descends, PrepCheck;
    CurKnown(cfg, s);
    if PrepWants(s.prep) {
      LockingDescends(cfg, s, n);
    } else if s.prep == QCheck {
      CheckDescends(cfg, s, n);
    } else {
      WorkDescends(cfg, s, n);
    }
  }

  /** Any other step: the prepare thread stays where it is, or is woken up. */
  ghost predicate Stays(s: State, s': State, n: int) {
    && s.arrived <= s'.arrived
    && s.lost <= s'.lost
    && Finished(s') == Finished(s)
    && Rank(s', n) <= Rank(s, n)
    && (!s.running ==> !s'.running)
  }

  lemma OthersKeepRank(cfg: Config, s: State, step: Step, n: int)
    requires Next(cfg, s, step).Some? && step != PrepStep
    ensures Stays(s, Next(cfg, s, step).value, n)
  {
    hide ClientNext, Stays;
    if step.ClientStep? {
      ClientKeepsRank(cfg, s, step.t, n);
    } else if step.CloserStep? {
      CloserKeepsRank(s, n);
    } else if step.PrepSpurious? {
      FrameKeepsRank(s, s.(prep := Signalled(s.prep)), n);
    } else {
      BeginKeepsRank(cfg, s, step, n);
    }
  }

  lemma CloserKeepsRank(s: State, n: int)
    requires CloserNext(s).Some?
    ensures Stays(s, CloserNext(s).value, n)
  {
    hide Stays;
    if s.closer == Open {
      FrameKeepsRank(s, s.(running := false, closer := CloseLock), n);
    } else if s.closer == CloseLock {
      FrameKeepsRank(s, Take(s, QueueMtx, Closer).(closer := CloseSignal), n);
    } else if s.closer == CloseSignal {
      FrameKeepsRank(s, Release(s, QueueMtx).(prep := Signalled(s.prep), closer := Joining), n);
    } else {
      FrameKeepsRank(s, s.(closer := Closed), n);
    }
  }

  lemma BeginKeepsRank(cfg: Config, s: State, step: Step, n: int)
    requires Next(cfg, s, step).Some? && (step.WriteStep? || step.ReadStep? || step.ClientSpurious?)
    ensures Stays(s, Next(cfg, s, step).value, n)
  {
  }

  lemma ClientKeepsRank(cfg: Config, s: State, t: nat, n: int)
    requires t in s.clients && ClientNext(cfg, s, t).Some?
    ensures Stays(s, ClientNext(cfg, s, t).value, n)
  {
    hide Stays;
    var pc := s.clients[t];
    if ClientWants(pc) {
      LockingKeepsRank(cfg, s, t, n);
    } else if pc.Enq? {
      EnqueueKeepsRank(s, t, pc.id, n);
    } else {
      WorkKeepsRank(cfg, s, t, n);
    }
  }

  lemma LockingKeepsRank(cfg: Config, s: State, t: nat, n: int)
    requires t in s.clients && ClientWants(s.clients[t]) && ClientNext(cfg, s, t).Some?
    ensures Stays(s, ClientNext(cfg, s, t).value, n)
  {
    var (m, pc) := ClientGoal(s.clients[t]);
    assert ClientNext(cfg, s, t) == ClientLock(s, t, m, pc);
  }

  lemma EnqueueKeepsRank(s: State, t: nat, o: OpId, n: int)
    ensures Stays(s, Enqueue(s, t, o), n)
  {
  }

  lemma WorkKeepsRank(cfg: Config, s: State, t: nat, n: int)
    requires t in s.clients && ClientNext(cfg, s, t).Some?
    requires !ClientWants(s.clients[t]) && !s.clients[t].Enq?
    ensures Stays(s, ClientNext(cfg, s, t).value, n)
  {
    hide Stays, Enqueue, CollectOp, ReadNow, ClientLock, Move, Release;
    var pc := s.clients[t];
    if pc.Collect? {
      CollectKeepsRank(s, t, pc.id, n);
    } else if pc.Read? {
      ReadKeepsRank(cfg, s, t, pc.id, pc.name, n);
    } else {
      OtherKeepsRank(cfg, s, t, n);
    }
  }

  lemma CollectKeepsRank(s: State, t: nat, o: OpId, n: int)
    requires CollectOp(s, t, o).Some?
    ensures Stays(s, CollectOp(s, t, o).value, n)
  {
    hide Stays;
    FrameKeepsRank(s, CollectOp(s, t, o).value, n);
  }

  lemma ReadKeepsRank(cfg: Config, s: State, t: nat, o: OpId, name: Name, n: int)
    requires o in s.req && s.req[o].ReadReq?
    ensures Stays(s, ReadNow(cfg, s, t, o, name), n)
  {
    hide Stays;
    FrameKeepsRank(s, ReadNow(cfg, s, t, o, name), n);
  }

  lemma OtherKeepsRank(cfg: Config, s: State, t: nat, n: int)
    requires t in s.clients && ClientNext(cfg, s, t).Some?
    requires !ClientWants(s.clients[t]) && !s.clients[t].Enq? && !s.clients[t].Collect? && !s.clients[t].Read?
    ensures Stays(s, ClientNext(cfg, s, t).value, n)
  {
    OtherMoves(cfg, s, t);
    hide Stays, ClientNext;
    FrameKeepsRank(s, ClientNext(cfg, s, t).value, n);
  }

  lemma FrameKeepsRank(s: State, s': State, n: int)
    requires s'.arrived == s.arrived && s'.lost == s.lost && s'.taken == s.taken && s'.draining == s.draining
    requires s'.prep == s.prep || s'.prep == Signalled(s.prep)
    requires s.running || !s'.running
    ensures Stays(s, s', n)
  {
  }

  /**
   * In every continuation, once the prepare thread has taken Rank(s, i + 1) more
   * steps the i-th arrival is finished: no matter what all the other threads do.
   */
  lemma {:induction false} FinishedInTime(cfg: Config, s: State, steps: seq<Step>, i: nat)
    requires Invariant(cfg, s) && Finished(s) <= i < |s.arrived|
    requires RunFrom(cfg, s, steps).Some?
    requires PrepSteps(steps) >= Rank(s, i + 1)
    ensures i < Finished(RunFrom(cfg, s, steps).value)
    decreases |steps|
  {
    hide Invariant, LockInv, ModeInv, QueueInv, OpInv, CurInv, RequestInv, SymInv, WriterInv, ReaderInv, DrainInv,
         OneOwner, EffectInv, EffectIdInv, ResultInv, HistInv, Next;
    NotBoth(cfg, s, i);
    var s1 := Next(cfg, s, steps[0]).value;
    StepKeeps(cfg, s, steps[0]);
    if steps[0] == PrepStep {
      assert Next(cfg, s, steps[0]) == PrepNext(cfg, s) by {
        PrepStepIs(cfg, s);
      }
      PrepDescends(cfg, s, i + 1);
    } else {
      OthersKeepRank(cfg, s, steps[0], i + 1);
    }
    if Finished(s1) <= i {
      FinishedInTime(cfg, s1, steps[1..], i);
    } else {
      FinishedGrows(cfg, s1, steps[1..]);
    }
  }

  lemma PrepStepIs(cfg: Config, s: State)
    ensures Next(cfg, s, PrepStep) == PrepNext(cfg, s)
  {
  }

  /** With an arrival to work on the prepare thread neither sleeps nor finds the queue empty. */
  lemma NotBoth(cfg: Config, s: State, i: nat)
    requires Invariant(cfg, s) && Finished(s) <= i < |s.arrived|
    ensures s.prep != QAsleep
    ensures s.prep == QCheck ==> s.qhead.Some?
    ensures s.prep != Exited ==> Rank(s, i + 1) > 0
  {
    hide LockInv, OpInv, RequestInv, SymInv, WriterInv, ReaderInv, DrainInv, OneOwner, EffectInv, EffectIdInv,
         ResultInv, HistInv;
  }

  /** Finished operations stay finished and lost ones stay lost; the invariant holds throughout. */
  lemma {:induction false} FinishedGrows(cfg: Config, s: State, steps: seq<Step>)
    requires Invariant(cfg, s) && RunFrom(cfg, s, steps).Some?
    ensures Invariant(cfg, RunFrom(cfg, s, steps).value)
    ensures Finished(s) <= Finished(RunFrom(cfg, s, steps).value)
    ensures s.arrived <= RunFrom(cfg, s, steps).value.arrived
    ensures s.lost <= RunFrom(cfg, s, steps).value.lost
    decreases |steps|
  {
    hide Invariant, LockInv, ModeInv, QueueInv, OpInv, CurInv, RequestInv, SymInv, WriterInv, ReaderInv, DrainInv,
         OneOwner, EffectInv, EffectIdInv, ResultInv, HistInv, Next;
    if steps != [] {
      StepKeeps(cfg, s, steps[0]);
      if steps[0] == PrepStep {
        PrepStepIs(cfg, s);
        PrepDescends(cfg, s, 0);
      } else {
        OthersKeepRank(cfg, s, steps[0], 0);
      }
      FinishedGrows(cfg, Next(cfg, s, steps[0]).value, steps[1..]);
    }
  }

  /** The thread that owns a mutex is never blocked, and its next step gives the mutex up. */
  predicate CanRelease(cfg: Config, s: State, t: Tid, m: Mutex) {
    match t
    case Prep => PrepNext(cfg, s).Some? && m !in PrepNext(cfg, s).value.owner
    case Closer => CloserNext(s).Some? && m !in CloserNext(s).value.owner
    case Client(n) => n in s.clients && ClientNext(cfg, s, n).Some? && m !in ClientNext(cfg, s, n).value.owner
  }

  lemma OwnerCanRelease(cfg: Config, s: State, m: Mutex)
    requires Invariant(cfg, s) && m in s.owner
    ensures CanRelease(cfg, s, s.owner[m], m)
  {
    OwnerHolds(cfg, s, m);
    hide Invariant, LockInv, ModeInv, QueueInv, OpInv, CurInv, RequestInv, SymInv, WriterInv, ReaderInv, DrainInv,
         OneOwner, EffectInv, EffectIdInv, ResultInv, HistInv;
    match s.owner[m]
    case Prep => PrepCanRelease(cfg, s, m);
    case Closer =>
    case Client(t) => ClientCanRelease(cfg, s, t, m);
  }

  lemma OwnerHolds(cfg: Config, s: State, m: Mutex)
    requires Invariant(cfg, s) && m in s.owner
    ensures Holds(s, s.owner[m]) == Some(m)
  {
    hide ModeInv, QueueInv, OpInv, CurInv, RequestInv, SymInv, WriterInv, ReaderInv, DrainInv, OneOwner, EffectInv,
         EffectIdInv, ResultInv, HistInv;
  }

  lemma PrepCanRelease(cfg: Config, s: State, m: Mutex)
    requires Invariant(cfg, s) && PrepHolds(s.prep) == Some(m)
    ensures PrepNext(cfg, s).Some? && m !in PrepNext(cfg, s).value.owner
  {
    hide Invariant, LockInv, ModeInv, QueueInv, OpInv, CurInv, RequestInv, SymInv, WriterInv, ReaderInv, DrainInv,
         OneOwner, EffectInv, EffectIdInv, ResultInv, HistInv;
    hide PrepNext;
    CurKnown(cfg, s);
    if s.prep == QCheck {
      CheckReleases(cfg, s);
    } else {
      WorkReleases(cfg, s, m);
    }
  }

  lemma CheckReleases(cfg: Config, s: State)
    requires s.prep == QCheck && (s.qhead.Some? ==> s.qhead.value in s.ops)
    ensures PrepNext(cfg, s).Some? && QueueMtx !in PrepNext(cfg, s).value.owner
  {
    hide PrepCheck, Dequeue;
    if s.qhead.Some? {
      TakingReleases(s);
    } else {
      EmptyReleases(s);
    }
  }

  lemma TakingReleases(s: State)
    requires s.qhead.Some? && s.qhead.value in s.ops
    ensures QueueMtx !in PrepCheck(s).owner
  {
  }

  lemma EmptyReleases(s: State)
    requires s.qhead.None?
    ensures QueueMtx !in PrepCheck(s).owner
  {
  }

  lemma WorkReleases(cfg: Config, s: State, m: Mutex)
    requires PrepHolds(s.prep) == Some(m) && s.prep != QCheck
    requires CurOp(s.prep).Some? ==> CurOp(s.prep).value in s.ops
    requires CurSym(s.prep).Some? ==> CurSym(s.prep).value in s.symbols
    ensures PrepNext(cfg, s).Some? && m !in PrepNext(cfg, s).value.owner
  {
    hide WakeReaders, WakeWriter;
  }

  lemma ClientCanRelease(cfg: Config, s: State, t: nat, m: Mutex)
    requires Invariant(cfg, s) && t in s.clients && ClientHolds(s.clients[t]) == Some(m)
    ensures ClientNext(cfg, s, t).Some? && m !in ClientNext(cfg, s, t).value.owner
  {
    hide Invariant, LockInv, ModeInv, QueueInv, OpInv, CurInv, RequestInv, SymInv, WriterInv, ReaderInv, DrainInv,
         OneOwner, EffectInv, EffectIdInv, ResultInv, HistInv;
    ClientFacts(cfg, s, t);
  }

  /**
   * Deadlock freedom.  While an arrival is unfinished and the prepare thread has not
   * left, the prepare thread can take a step, or it waits for one mutex whose owner
   * can take a step that gives it up.
   */
  lemma NeverStuck(cfg: Config, s: State, i: nat)
    requires Invariant(cfg, s) && Pending(s, i)
    ensures PrepNext(cfg, s).Some? ||
            (PrepWants(s.prep) && PrepGoal(s.prep).0 in s.owner
             && s.owner[PrepGoal(s.prep).0] != Prep
             && CanRelease(cfg, s, s.owner[PrepGoal(s.prep).0], PrepGoal(s.prep).0))
  {
    NotBoth(cfg, s, i);
    CurKnown(cfg, s);
    hide QueueInv, ModeInv, OpInv, CurInv, RequestInv, SymInv, WriterInv, ReaderInv, DrainInv, OneOwner, EffectInv,
         EffectIdInv, ResultInv, HistInv;
    if PrepWants(s.prep) && PrepGoal(s.prep).0 in s.owner {
      OwnerCanRelease(cfg, s, PrepGoal(s.prep).0);
    }
  }

  /** The steps of a writer from its wait to its return, once its operation is completed. */
  predicate Onwards(pc: ClientPc, pc': ClientPc) {
    match pc
    case WaitLock(o) => pc' == WaitCheck(o)
    case WaitWake(o) => pc' == WaitCheck(o)
    case WaitCheck(o) => pc' == Collect(o)
    case Collect(_) => pc' == Idle
    case _ => false
  }

  /** A writer whose operation is finished can always go on, and does so towards its return. */
  lemma FinishedWriterReturns(cfg: Config, s: State, t: nat, i: nat)
    requires Invariant(cfg, s) && i < Finished(s) && i < |s.arrived|
    requires t in s.clients && ClientOp(s.clients[t]) == Some(s.arrived[i])
    ensures ClientNext(cfg, s, t).Some? && t in ClientNext(cfg, s, t).value.clients
    ensures Onwards(s.clients[t], ClientNext(cfg, s, t).value.clients[t])
  {
    hide Invariant, LockInv, ModeInv, QueueInv, OpInv, CurInv, RequestInv, SymInv, WriterInv, ReaderInv, DrainInv,
         OneOwner, EffectInv, EffectIdInv, ResultInv, HistInv;
    var o := s.arrived[i];
    FinishedWriterWaits(cfg, s, t, i);
    FinishedIsCompleted(cfg, s, i);
    if DoneMtx(o) in s.owner {
      DoneMutexOwner(cfg, s, t, o);
    }
    WaiterGoesOn(cfg, s, t, o);
  }

  lemma WaiterGoesOn(cfg: Config, s: State, t: nat, o: OpId)
    requires t in s.clients && ClientOp(s.clients[t]) == Some(o) && o in s.ops && s.ops[o].result.Some?
             && s.ops[o].completed
    requires var pc := s.clients[t]; pc.WaitLock? || pc.WaitCheck? || pc.WaitWake? || pc.Collect?
    requires DoneMtx(o) in s.owner ==> Holds(s, Client(t)) == Some(DoneMtx(o))
    ensures ClientNext(cfg, s, t).Some? && t in ClientNext(cfg, s, t).value.clients
    ensures Onwards(s.clients[t], ClientNext(cfg, s, t).value.clients[t])
  {
  }

  /** Such a writer waits, awake, or is about to collect the result. */
  lemma FinishedWriterWaits(cfg: Config, s: State, t: nat, i: nat)
    requires Invariant(cfg, s) && i < Finished(s) && i < |s.arrived|
    requires t in s.clients && ClientOp(s.clients[t]) == Some(s.arrived[i])
    ensures s.arrived[i] in s.ops && s.ops[s.arrived[i]].result.Some?
    ensures
      var pc := s.clients[t];
      pc.WaitLock? || pc.WaitCheck? || pc.WaitWake? || pc.Collect?
  {
    var o := s.arrived[i];
    assert o in s.arrived;
    FinishedIsCompleted(cfg, s, i);
    assert WriterOk(s.clients[t], s.ops, s.arrived, s.lost) && ReaderOk(s.clients[t], s.req, s.effects) by {
      ClientFacts(cfg, s, t);
    }
    hide LockInv, ModeInv, QueueInv, CurInv, SymInv, WriterInv, ReaderInv, DrainInv, OneOwner, EffectInv, EffectIdInv,
         HistInv;
    if o in s.ops {
      CompletedResult(s, o);
    }
  }

  lemma FinishedIsCompleted(cfg: Config, s: State, i: nat)
    requires Invariant(cfg, s) && i < Finished(s) && i < |s.arrived|
    ensures s.arrived[i] in s.ops ==> s.ops[s.arrived[i]].completed
    ensures CurOp(s.prep) != Some(s.arrived[i])
  {
    hide LockInv, ModeInv, QueueInv, RequestInv, SymInv, WriterInv, ReaderInv, DrainInv, OneOwner, EffectInv,
         EffectIdInv, ResultInv, HistInv;
  }

  /** Only the writer of `o` and the prepare thread working on `o` ever take its mutex. */
  lemma DoneMutexOwner(cfg: Config, s: State, t: nat, o: OpId)
    requires Invariant(cfg, s) && t in s.clients && ClientOp(s.clients[t]) == Some(o)
    requires CurOp(s.prep) != Some(o) && DoneMtx(o) in s.owner
    ensures Holds(s, Client(t)) == Some(DoneMtx(o))
  {
    hide ModeInv, QueueInv, OpInv, CurInv, RequestInv, SymInv, WriterInv, ReaderInv, DrainInv, EffectInv, EffectIdInv,
         ResultInv, HistInv;
    assert Holds(s, s.owner[DoneMtx(o)]) == Some(DoneMtx(o));
  }

  // ----- shutdown -----

  /** Leaving the drain loop, the prepare thread leaves no arrival behind. */
  lemma ExitLeavesNothing(cfg: Config, s: State)
    requires Invariant(cfg, s) && PrepNext(cfg, s).Some?
    requires PrepNext(cfg, s).value.prep == Exited
    ensures Finished(s) == Executed(s) == |s.arrived|
    ensures forall o :: o in s.arrived && o in s.ops ==> s.ops[o].completed
  {
    PrepDescends(cfg, s, 0);
    hide LockInv, QueueInv, RequestInv, SymInv, WriterInv, ReaderInv, DrainInv, OneOwner, EffectInv, EffectIdInv,
         ResultInv, HistInv;
    assert CurOp(s.prep).None? by {
      ExitFromCheck(cfg, s);
    }
  }

  lemma ExitFromCheck(cfg: Config, s: State)
    requires PrepNext(cfg, s).Some? && PrepNext(cfg, s).value.prep == Exited
    ensures s.prep == QCheck
  {
  }

  /**
   * Once the buffer has stopped running, the prepare thread takes a bounded number of
   * further steps: at most 20 for each operation that ever arrives and is not finished,
   * and 19 to leave.
   */
  lemma {:induction false} PrepStepsBounded(cfg: Config, s: State, steps: seq<Step>)
    requires Invariant(cfg, s) && !s.running
    requires RunFrom(cfg, s, steps).Some?
    ensures PrepSteps(steps) <= Rank(s, |RunFrom(cfg, s, steps).value.arrived|)
    decreases |steps|
  {
    hide Invariant, LockInv, ModeInv, QueueInv, OpInv, CurInv, RequestInv, SymInv, WriterInv, ReaderInv, DrainInv,
         OneOwner, EffectInv, EffectIdInv, ResultInv, HistInv, Next;
    var n := |RunFrom(cfg, s, steps).value.arrived|;
    FinishedGrows(cfg, s, steps);
    if steps == [] {
      RankNonNegative(cfg, s, n);
    } else {
      var s1 := Next(cfg, s, steps[0]).value;
      StepKeeps(cfg, s, steps[0]);
      if steps[0] == PrepStep {
        PrepStepIs(cfg, s);
        PrepDescends(cfg, s, n);
      } else {
        OthersKeepRank(cfg, s, steps[0], n);
      }
      PrepStepsBounded(cfg, s1, steps[1..]);
    }
  }

  lemma RankNonNegative(cfg: Config, s: State, n: nat)
    requires Invariant(cfg, s) && n >= |s.arrived|
    ensures Rank(s, n) >= 0
  {
    hide LockInv, QueueInv, OpInv, RequestInv, SymInv, WriterInv, ReaderInv, DrainInv, OneOwner, EffectInv,
         EffectIdInv, ResultInv, HistInv;
  }

  /** ... and before it has left it is never stuck. */
  lemma ShutdownNeverStuck(cfg: Config, s: State)
    requires Invariant(cfg, s) && !s.running && s.prep != Exited
    ensures
      || PrepNext(cfg, s).Some?
      || (PrepWants(s.prep) && PrepGoal(s.prep).0 in s.owner
          && CanRelease(cfg, s, s.owner[PrepGoal(s.prep).0], PrepGoal(s.prep).0))
      || (s.prep == QAsleep && s.closer == CloseSignal)
      || (s.prep == QAsleep && s.closer == CloseLock
          && (CloserNext(s).Some? || (QueueMtx in s.owner && CanRelease(cfg, s, s.owner[QueueMtx], QueueMtx))))
  {
    CurKnown(cfg, s);
    if s.prep == QAsleep {
      hide LockInv, QueueInv, OpInv, CurInv, RequestInv, SymInv, WriterInv, ReaderInv, DrainInv, OneOwner, EffectInv,
           EffectIdInv, ResultInv, HistInv;
      if QueueMtx in s.owner {
        OwnerCanRelease(cfg, s, QueueMtx);
      }
    } else {
      hide LockInv, QueueInv, OpInv, CurInv, RequestInv, SymInv, WriterInv, ReaderInv, DrainInv, OneOwner, EffectInv,
           EffectIdInv, ResultInv, HistInv;
      if PrepWants(s.prep) && PrepGoal(s.prep).0 in s.owner {
        OwnerCanRelease(cfg, s, PrepGoal(s.prep).0);
      }
    }
  }
}
