/**
 * Which operations shutdown completes.  The drain loop takes operations off the central
 * queue without resetting the tail when the queue becomes empty.  An operation that is
 * enqueued after that is linked behind the last one drained, where nobody looks.
 */
module NsBufferShutdown {
  import opened Common
  import opened EnvModel
  import opened NsBuffer
  import opened NsBufferInvariant
  import opened NsBufferPrepSteps
  import opened NsBufferClientSteps
  import opened NsBufferProgress

  /** A lost operation has no effect and never returns. */
  ghost predicate Forgotten(s: State, o: OpId) {
    && NoEffectYet(s.effects, o)
    && (forall out :: Ret(o, out) !in s.hist)
  }

  lemma LostIsForgotten(cfg: Config, s: State, o: OpId)
    requires Invariant(cfg, s) && o in s.lost
    ensures Forgotten(s, o)
  {
    hide LockInv, CurInv, SymInv, WriterInv, ReaderInv, DrainInv, OneOwner, ResultInv;
    assert o in s.ops && o !in s.arrived;
    assert s.req[o].WriteReq?;
    forall k | 0 <= k < |s.effects| ensures s.effects[k].id != o {
      if s.effects[k].req.WriteReq? {
        WriteListed(s.effects, k);
      }
    }
  }

  /** After the prepare thread has left nothing is executed any more. */
  lemma {:induction false} ExitedForever(cfg: Config, s: State, steps: seq<Step>)
    requires Invariant(cfg, s) && s.prep == Exited && RunFrom(cfg, s, steps).Some?
    ensures Finished(RunFrom(cfg, s, steps).value) == Finished(s)
    ensures RunFrom(cfg, s, steps).value.prep == Exited
    decreases |steps|
  {
    hide Invariant, LockInv, ModeInv, QueueInv, OpInv, CurInv, RequestInv, SymInv, WriterInv, ReaderInv, DrainInv,
         OneOwner, EffectInv, EffectIdInv, ResultInv, HistInv, Next;
    if steps != [] {
      PrepStepIs(cfg, s);
      StepKeeps(cfg, s, steps[0]);
      OthersKeepRank(cfg, s, steps[0], 0);
      ExitedForever(cfg, Next(cfg, s, steps[0]).value, steps[1..]);
    }
  }

  ghost predicate Completed(s: State, o: OpId) {
    Among(s.arrived, Finished(s), o)
  }

  /** A tail that belongs to the queue points at an operation that still exists. */
  lemma AttachedTailLives(s: State)
    requires QueueInv(s.ops, s.arrived, s.taken, s.draining, s.qhead, s.qtail, s.lost) && TailAttached(s)
    ensures !TailFreed(s) && s.lost == []
  {
    if s.qtail.Some? {
      assert QueuedAt(s.ops, s.arrived, |s.arrived| - 1);
    }
  }

  /**
   * Exactly the operations that find the tail attached complete: behind an attached
   * tail, in every continuation in which the prepare thread takes that many steps, and
   * behind a detached one in none.  If the detached tail is gone, too, the link is written
   * into freed memory; C leaves open what that does, the flag says so, and the run goes on
   * here as if nothing had been hit.
   */
  lemma EnqueueOutcome(cfg: Config, s: State, t: nat, o: OpId, steps: seq<Step>)
    requires Invariant(cfg, s) && t in s.clients && s.clients[t] == Enq(o)
    requires RunFrom(cfg, Enqueue(s, t, o), steps).Some?
    ensures
      var s' := Enqueue(s, t, o);
      var f := RunFrom(cfg, s', steps).value;
      && (TailAttached(s) && PrepSteps(steps) >= Rank(s', |s'.arrived|) ==> Completed(f, o))
      && (!TailAttached(s) ==> Forgotten(f, o) && !Completed(f, o))
      && (s'.wild != s.wild ==> !TailAttached(s) && TailFreed(s))
  {
    hide Invariant, LockInv, ModeInv, QueueInv, OpInv, CurInv, RequestInv, SymInv, WriterInv, ReaderInv, DrainInv,
         OneOwner, EffectInv, EffectIdInv, ResultInv, HistInv, Forgotten;
    var s' := Enqueue(s, t, o);
    var f := RunFrom(cfg, s', steps).value;
    EnqueueKeeps(cfg, s, t, o);
    FinishedGrows(cfg, s', steps);
    Bounds(cfg, s');
    if TailAttached(s) {
      TailLives(cfg, s);
      var i := |s'.arrived| - 1;
      assert s'.arrived[i] == o;
      if PrepSteps(steps) >= Rank(s', |s'.arrived|) {
        FinishedInTimeOrAlready(cfg, s', steps, i);
        assert f.arrived[i] == o;
      }
    } else {
      assert o in s'.lost;
      LostIsForgotten(cfg, f, o);
      LostNotArrived(cfg, f, o);
    }
  }

  lemma TailLives(cfg: Config, s: State)
    requires Invariant(cfg, s) && TailAttached(s)
    ensures !TailFreed(s)
  {
    assert QueueInv(s.ops, s.arrived, s.taken, s.draining, s.qhead, s.qtail, s.lost);
    hide Invariant;
    AttachedTailLives(s);
  }

  lemma Bounds(cfg: Config, s: State)
    requires Invariant(cfg, s)
    ensures Finished(s) <= |s.arrived|
  {
    hide LockInv, QueueInv, OpInv, CurInv, RequestInv, SymInv, WriterInv, ReaderInv, DrainInv, OneOwner, EffectInv,
         EffectIdInv, ResultInv, HistInv;
  }

  lemma FinishedInTimeOrAlready(cfg: Config, s: State, steps: seq<Step>, i: nat)
    requires Invariant(cfg, s) && RunFrom(cfg, s, steps).Some? && i < |s.arrived|
    requires PrepSteps(steps) >= Rank(s, i + 1)
    ensures i < Finished(RunFrom(cfg, s, steps).value)
  {
    hide Invariant, LockInv, ModeInv, QueueInv, OpInv, CurInv, RequestInv, SymInv, WriterInv, ReaderInv, DrainInv,
         OneOwner, EffectInv, EffectIdInv, ResultInv, HistInv;
    if i < Finished(s) {
      FinishedGrows(cfg, s, steps);
    } else {
      FinishedInTime(cfg, s, steps, i);
    }
  }

  lemma LostNotArrived(cfg: Config, s: State, o: OpId)
    requires Invariant(cfg, s) && o in s.lost
    ensures !Completed(s, o)
  {
    hide LockInv, CurInv, RequestInv, SymInv, WriterInv, ReaderInv, DrainInv, OneOwner, EffectInv, EffectIdInv,
         ResultInv, HistInv;
  }

  /** Before the drain loop the tail is always attached. */
  lemma AttachedWhileRunning(cfg: Config, s: State)
    requires Invariant(cfg, s) && !s.draining
    ensures TailAttached(s)
  {
    hide LockInv, OpInv, CurInv, RequestInv, SymInv, WriterInv, ReaderInv, DrainInv, OneOwner, EffectInv, EffectIdInv,
         ResultInv, HistInv;
  }

  // ----- two runs -----

  lemma OneMore(cfg: Config, steps: seq<Step>, step: Step)
    requires Run(cfg, steps).Some?
    ensures Run(cfg, steps + [step]) == Next(cfg, Run(cfg, steps).value, step)
  {
    assert (steps + [step])[..|steps|] == steps;
  }

  /** The first client's write to "a" has been put into the central queue. */
  function Queued(cfg: Config, c: Call): State {
    State(true, false, Some(0), Some(0), map[0 := NsOp("a", c, None, false, None)], map[], map[],
          LoopTop, Open, map[0 := WaitLock(0)], cfg.init,
          1, map[0 := WriteReq("a", c)], [0], 0, [], [], [Inv(0, WriteReq("a", c))], false)
  }

  /** On the way there: the client stands at `pc` and owns what `owner` says. */
  function Enqueuing(cfg: Config, c: Call, pc: ClientPc, owner: map<Mutex, Tid>): State {
    State(true, false, None, None, map[0 := NsOp("a", c, None, false, None)], map[], owner,
          LoopTop, Open, map[0 := pc], cfg.init,
          1, map[0 := WriteReq("a", c)], [], 0, [], [], [Inv(0, WriteReq("a", c))], false)
  }

  lemma EnqueuingBegins(cfg: Config, c: Call)
    ensures Next(cfg, Start(cfg), WriteStep(0, "a", c)) == Some(Enqueuing(cfg, c, EnqLock(0), map[]))
  {
    var s' := BeginWrite(Start(cfg), 0, "a", c).value;
    assert s'.ops == map[0 := NsOp("a", c, None, false, None)];
    assert s' == Enqueuing(cfg, c, EnqLock(0), map[]);
  }

  lemma EnqueuingLocks(cfg: Config, c: Call)
    ensures Next(cfg, Enqueuing(cfg, c, EnqLock(0), map[]), ClientStep(0))
            == Some(Enqueuing(cfg, c, Enq(0), map[QueueMtx := Client(0)]))
  {
    var s := Enqueuing(cfg, c, EnqLock(0), map[]);
    assert ClientNext(cfg, s, 0) == ClientLock(s, 0, QueueMtx, Enq(0));
    assert s.clients[0 := Enq(0)] == map[0 := Enq(0)];
  }

  lemma EnqueuingEnds(cfg: Config, c: Call)
    ensures Next(cfg, Enqueuing(cfg, c, Enq(0), map[QueueMtx := Client(0)]), ClientStep(0)) == Some(Queued(cfg, c))
  {
    var s := Enqueuing(cfg, c, Enq(0), map[QueueMtx := Client(0)]);
    var s' := Enqueue(s, 0, 0);
    assert ClientNext(cfg, s, 0) == Some(s');
    assert s'.clients == map[0 := WaitLock(0)];
    assert s'.owner == map[];
    assert s'.arrived == [0];
    assert s' == Queued(cfg, c);
  }

  lemma NothingRun(cfg: Config)
    ensures Run(cfg, []) == Some(Start(cfg))
  {
    hide Next, Start;
  }

  lemma QueuedReached(cfg: Config, c: Call)
    ensures Run(cfg, [WriteStep(0, "a", c), ClientStep(0), ClientStep(0)]) == Some(Queued(cfg, c))
  {
    hide Next, Start, Queued, Enqueuing, Run;
    NothingRun(cfg);
    EnqueuingBegins(cfg, c);
    EnqueuingLocks(cfg, c);
    EnqueuingEnds(cfg, c);
    OneMore(cfg, [], WriteStep(0, "a", c));
    OneMore(cfg, [] + [WriteStep(0, "a", c)], ClientStep(0));
    OneMore(cfg, [] + [WriteStep(0, "a", c)] + [ClientStep(0)], ClientStep(0));
    assert [] + [WriteStep(0, "a", c)] + [ClientStep(0)] + [ClientStep(0)] ==
           [WriteStep(0, "a", c), ClientStep(0), ClientStep(0)];
  }

  /** A second client has begun a write to "b", the buffer was stopped, and the drain loop took the first write. */
  function Stopping(cfg: Config, c: Call): State {
    State(false, true, None, Some(0),
          map[0 := NsOp("a", c, None, false, None), 1 := NsOp("b", c, None, false, None)], map[], map[],
          FindLock(0), CloseLock, map[0 := WaitLock(0), 1 := EnqLock(1)], cfg.init,
          2, map[0 := WriteReq("a", c), 1 := WriteReq("b", c)], [0], 1, [], [],
          [Inv(0, WriteReq("a", c)), Inv(1, WriteReq("b", c))], false)
  }

  /** Several steps appended to a run. */
  lemma {:induction false} Continued(cfg: Config, steps: seq<Step>, more: seq<Step>)
    requires Run(cfg, steps).Some? && RunFrom(cfg, Run(cfg, steps).value, more).Some?
    ensures Run(cfg, steps + more) == RunFrom(cfg, Run(cfg, steps).value, more)
    decreases |more|
  {
    hide Next, Run, Start;
    if more == [] {
      assert steps + more == steps;
    } else {
      OneMore(cfg, steps, more[0]);
      Continued(cfg, steps + [more[0]], more[1..]);
      assert steps + more == steps + [more[0]] + more[1..];
    }
  }

  lemma FirstOf(cfg: Config, s: State, step: Step, rest: seq<Step>)
    requires Next(cfg, s, step).Some?
    ensures RunFrom(cfg, s, [step] + rest) == RunFrom(cfg, Next(cfg, s, step).value, rest)
  {
    assert ([step] + rest)[1..] == rest;
  }

  lemma StoppingReached(cfg: Config, c: Call)
    ensures RunFrom(cfg, Queued(cfg, c),
            [WriteStep(1, "b", c)] + ([CloserStep] + ([PrepStep] + ([PrepStep] + ([PrepStep] + [])))))
            == Some(Stopping(cfg, c))
  {
    var s0 := Queued(cfg, c);
    var s1 := Next(cfg, s0, WriteStep(1, "b", c)).value;
    FirstOf(cfg, s0, WriteStep(1, "b", c), [CloserStep] + ([PrepStep] + ([PrepStep] + ([PrepStep] + []))));
    var s2 := s1.(running := false, closer := CloseLock);
    FirstOf(cfg, s1, CloserStep, [PrepStep] + ([PrepStep] + ([PrepStep] + [])));
    var s3 := s2.(draining := true, prep := QLock);
    FirstOf(cfg, s2, PrepStep, [PrepStep] + ([PrepStep] + []));
    var s4 := Take(s3, QueueMtx, Prep).(prep := QCheck);
    FirstOf(cfg, s3, PrepStep, [PrepStep] + []);
    FirstOf(cfg, s4, PrepStep, []);
    assert PrepNext(cfg, s4).value == Dequeue(s4, 0);
    assert Dequeue(s4, 0).ops == Stopping(cfg, c).ops;
    assert Dequeue(s4, 0).owner == map[];
    assert Dequeue(s4, 0) == Stopping(cfg, c);
  }

  lemma LostReached(cfg: Config, c: Call)
    ensures RunFrom(cfg, Stopping(cfg, c), [ClientStep(1)] + ([ClientStep(1)] + [])).Some?
    ensures RunFrom(cfg, Stopping(cfg, c), [ClientStep(1)] + ([ClientStep(1)] + [])).value.lost == [1]
    ensures RunFrom(cfg, Stopping(cfg, c), [ClientStep(1)] + ([ClientStep(1)] + [])).value.hist == Stopping(cfg, c).hist
  {
    var s := Stopping(cfg, c);
    var s1 := Move(Take(s, QueueMtx, Client(1)), 1, Enq(1));
    FirstOf(cfg, s, ClientStep(1), [ClientStep(1)] + []);
    FirstOf(cfg, s1, ClientStep(1), []);
    assert Next(cfg, s1, ClientStep(1)) == Some(Enqueue(s1, 1, 1));
  }

  /**
   * A run that loses an operation.  The second client's operation was begun while the
   * buffer was running and is enqueued while the prepare thread, in its drain loop, is
   * still working on the first client's.
   */
  lemma AnOperationIsLost(cfg: Config, c: Call) returns (steps: seq<Step>)
    ensures Run(cfg, steps).Some?
    ensures 1 in Run(cfg, steps).value.lost && Inv(1, WriteReq("b", c)) in Run(cfg, steps).value.hist
  {
    QueuedReached(cfg, c);
    StoppingReached(cfg, c);
    LostReached(cfg, c);
    assert Inv(1, WriteReq("b", c)) in Stopping(cfg, c).hist;
    hide Next, RunFrom, Queued, Stopping, Start, Run;
    var first := [WriteStep(0, "a", c), ClientStep(0), ClientStep(0)];
    var second := [WriteStep(1, "b", c)] + ([CloserStep] + ([PrepStep] + ([PrepStep] + ([PrepStep] + []))));
    Continued(cfg, first, second);
    Continued(cfg, first + second, [ClientStep(1)] + ([ClientStep(1)] + []));
    steps := first + second + ([ClientStep(1)] + ([ClientStep(1)] + []));
  }

  /** A second client, reading "a", stands at `pc` and owns what `owner` says. */
  function Reading(cfg: Config, c: Call, pc: ClientPc, owner: map<Mutex, Tid>): State {
    State(true, false, Some(0), Some(0), map[0 := NsOp("a", c, None, false, None)], map[], owner,
          LoopTop, Open, map[0 := WaitLock(0), 1 := pc], cfg.init,
          2, map[0 := WriteReq("a", c), 1 := ReadReq("a", 0)], [0], 0, [], [],
          [Inv(0, WriteReq("a", c)), Inv(1, ReadReq("a", 0))], false)
  }

  lemma ReadingLocks(cfg: Config, c: Call, pc: ClientPc)
    requires ClientWants(pc)
    ensures Next(cfg, Reading(cfg, c, pc, map[]), ClientStep(1))
            == Some(Reading(cfg, c, ClientGoal(pc).1, map[ClientGoal(pc).0 := Client(1)]))
  {
    var s := Reading(cfg, c, pc, map[]);
    var (m, pc') := ClientGoal(pc);
    assert ClientNext(cfg, s, 1) == ClientLock(s, 1, m, pc');
    assert s.clients[1 := pc'] == map[0 := WaitLock(0), 1 := pc'];
  }

  lemma ReadingUnregistered(cfg: Config, c: Call)
    ensures Next(cfg, Reading(cfg, c, Reg(1, "a"), map[SymbolsMtx := Client(1)]), ClientStep(1))
            == Some(Reading(cfg, c, ReadLock(1, "a"), map[]))
  {
    var s := Reading(cfg, c, Reg(1, "a"), map[SymbolsMtx := Client(1)]);
    assert ClientNext(cfg, s, 1) == Some(Move(Release(s, SymbolsMtx), 1, ReadLock(1, "a")));
    assert s.clients[1 := ReadLock(1, "a")] == map[0 := WaitLock(0), 1 := ReadLock(1, "a")];
    assert s.owner - {SymbolsMtx} == map[];
  }

  lemma ReadingBegins(cfg: Config, c: Call)
    ensures Next(cfg, Queued(cfg, c), ReadStep(1, "a", 0)) == Some(Reading(cfg, c, RegLock(1, "a"), map[]))
  {
    var s := Queued(cfg, c);
    var s' := BeginRead(s, 1, "a", 0).value;
    assert s'.clients == map[0 := WaitLock(0), 1 := RegLock(1, "a")];
    assert s'.req == map[0 := WriteReq("a", c), 1 := ReadReq("a", 0)];
    assert s' == Reading(cfg, c, RegLock(1, "a"), map[]);
  }

  lemma ReadingReturns(cfg: Config, c: Call, s': State)
    requires s' == ReadNow(cfg, Reading(cfg, c, Read(1, "a"), map[EnvMtx := Client(1)]), 1, 1, "a")
    ensures Next(cfg, Reading(cfg, c, Read(1, "a"), map[EnvMtx := Client(1)]), ClientStep(1)) == Some(s')
    ensures s'.arrived == [0] && Executed(s') == 0
    ensures s'.hist == [Inv(0, WriteReq("a", c)), Inv(1, ReadReq("a", 0)), Ret(1, Got(cfg.look(cfg.init, 0, "a")))]
  {
  }

  lemma ReadingAsks(cfg: Config, c: Call, pc: ClientPc, owner: map<Mutex, Tid>)
    ensures 1 in Reading(cfg, c, pc, owner).req && Reading(cfg, c, pc, owner).req[1].ReadReq?
  {
  }

  /**
   * A run in which a read returns before a write to the same name, already in the
   * central queue when the read began, has been executed.
   */
  lemma AReadOvertakesAWrite(cfg: Config, c: Call) returns (steps: seq<Step>)
    ensures Run(cfg, steps).Some?
    ensures
      var s := Run(cfg, steps).value;
      && s.arrived == [0] && Executed(s) == 0
      && s.hist == [Inv(0, WriteReq("a", c)), Inv(1, ReadReq("a", 0)), Ret(1, Got(cfg.look(cfg.init, 0, "a")))]
  {
    hide Next, Queued, Start, Run, Reading, ReadNow;
    QueuedReached(cfg, c);
    ReadingBegins(cfg, c);
    ReadingLocks(cfg, c, RegLock(1, "a"));
    ReadingUnregistered(cfg, c);
    ReadingLocks(cfg, c, ReadLock(1, "a"));
    ReadingAsks(cfg, c, Read(1, "a"), map[EnvMtx := Client(1)]);
    ReadingReturns(cfg, c, ReadNow(cfg, Reading(cfg, c, Read(1, "a"), map[EnvMtx := Client(1)]), 1, 1, "a"));
    steps := [WriteStep(0, "a", c), ClientStep(0), ClientStep(0)];
    OneMore(cfg, steps, ReadStep(1, "a", 0));
    steps := steps + [ReadStep(1, "a", 0)];
    OneMore(cfg, steps, ClientStep(1));
    steps := steps + [ClientStep(1)];
    OneMore(cfg, steps, ClientStep(1));
    steps := steps + [ClientStep(1)];
    OneMore(cfg, steps, ClientStep(1));
    steps := steps + [ClientStep(1)];
    OneMore(cfg, steps, ClientStep(1));
    steps := steps + [ClientStep(1)];
  }
}
