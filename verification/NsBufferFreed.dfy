/**
 * Which operations the tail of the central queue can point at after their writers have
 * freed them.  The drain loop leaves the tail at the last operation it takes; once that is
 * freed, the next operation to be enqueued is written into its memory.
 */
module NsBufferFreed {
  import opened Common
  import opened EnvModel
  import opened NsBuffer
  import opened NsBufferInvariant
  import opened NsBufferPrepSteps
  import opened NsBufferClientSteps
  import opened NsBufferTheorems
  import opened NsBufferProgress
  import opened NsBufferShutdown

  /** The client got its result, so the operation was freed. */
  ghost predicate HasReturned(hist: seq<Event>, o: OpId) {
    exists out :: Ret(o, out) in hist
  }

  /** The operation that was put behind the queue last, whether it arrived or was lost. */
  function Newest(arrived: seq<OpId>, lost: seq<OpId>): Option<OpId> {
    if lost != [] then Some(lost[|lost| - 1])
    else if arrived != [] then Some(arrived[|arrived| - 1])
    else None
  }

  /** Write operations exist until they return. */
  ghost predicate OpsFreed(ops: map<OpId, NsOp>, hist: seq<Event>, req: map<OpId, Request>) {
    forall o :: o in req && req[o].WriteReq? ==> (o in ops <==> !HasReturned(hist, o))
  }

  ghost predicate FreedInv(s: State) {
    && (s.qtail.Some? ==> s.qtail == Newest(s.arrived, s.lost))
    && OpsFreed(s.ops, s.hist, s.req)
    && (s.wild ==> s.draining && s.lost != [])
  }

  // ----- steps that free nothing -----

  ghost predicate FreesNothing(s: State, s': State) {
    && (forall o :: o in s'.ops <==> o in s.ops)
    && s'.hist == s.hist && s'.req == s.req && s'.arrived == s.arrived && s'.lost == s.lost && s'.wild == s.wild
    && (s'.qtail == s.qtail || s'.qtail.None?)
    && (s.draining ==> s'.draining)
  }

  lemma NothingFreed(s: State, s': State)
    requires FreedInv(s) && FreesNothing(s, s')
    ensures FreedInv(s')
  {
    hide HasReturned;
  }

  lemma PrepFrees(cfg: Config, s: State)
    requires Invariant(cfg, s) && PrepNext(cfg, s).Some?
    ensures FreesNothing(s, PrepNext(cfg, s).value)
  {
    CurKnown(cfg, s);
    hide Invariant, FreesNothing, PrepCheck;
    if PrepWants(s.prep) {
      PrepLockFrees(cfg, s);
    } else if s.prep == QCheck {
      if s.qhead.Some? {
        DequeueFrees(s);
      } else {
        EmptyFrees(s);
      }
    } else {
      PrepWorkFrees(cfg, s);
    }
  }

  lemma PrepLockFrees(cfg: Config, s: State)
    requires PrepWants(s.prep) && PrepNext(cfg, s).Some?
    ensures FreesNothing(s, PrepNext(cfg, s).value)
  {
    var (m, pc) := PrepGoal(s.prep);
    assert PrepNext(cfg, s) == PrepLock(s, m, pc);
  }

  lemma DequeueFrees(s: State)
    requires s.qhead.Some? && s.qhead.value in s.ops
    ensures FreesNothing(s, PrepCheck(s))
  {
  }

  lemma EmptyFrees(s: State)
    requires s.qhead.None?
    ensures FreesNothing(s, PrepCheck(s))
  {
  }

  lemma PrepWorkFrees(cfg: Config, s: State)
    requires PrepNext(cfg, s).Some? && !PrepWants(s.prep) && s.prep != QCheck
    ensures FreesNothing(s, PrepNext(cfg, s).value)
  {
    hide FreesNothing, PrepNext, WakeReaders, WakeWriter;
    IdleNeverSteps(cfg, s);
    if s.prep.LoopTop? || s.prep.Find? || s.prep.Link? {
      EarlyFrees(cfg, s);
    } else {
      LateFrees(cfg, s);
    }
  }

  lemma EarlyFrees(cfg: Config, s: State)
    requires (s.prep.LoopTop? || s.prep.Find? || s.prep.Link?) && PrepNext(cfg, s).Some?
    ensures FreesNothing(s, PrepNext(cfg, s).value)
  {
  }

  lemma LateFrees(cfg: Config, s: State)
    requires (s.prep.Exec? || s.prep.Unlink? || s.prep.Done?) && PrepNext(cfg, s).Some?
    ensures FreesNothing(s, PrepNext(cfg, s).value)
  {
    hide WakeReaders, WakeWriter;
  }

  lemma SameFrees(s: State, s': State)
    requires s'.ops == s.ops && s'.hist == s.hist && s'.req == s.req && s'.arrived == s.arrived && s'.lost == s.lost
    requires s'.wild == s.wild && s'.qtail == s.qtail && s'.draining == s.draining
    ensures FreesNothing(s, s')
  {
  }

  lemma CloserFrees(s: State)
    requires CloserNext(s).Some?
    ensures FreesNothing(s, CloserNext(s).value)
  {
    hide FreesNothing;
    if s.closer == Open {
      SameFrees(s, s.(running := false, closer := CloseLock));
    } else if s.closer == CloseLock {
      SameFrees(s, Take(s, QueueMtx, Closer).(closer := CloseSignal));
    } else if s.closer == CloseSignal {
      SameFrees(s, Release(s, QueueMtx).(prep := Signalled(s.prep), closer := Joining));
    } else {
      SameFrees(s, s.(closer := Closed));
    }
  }

  lemma ClientMoveFrees(s: State, s': State, t: nat, pc: ClientPc)
    requires s' == Move(s.(owner := s'.owner), t, pc)
    ensures FreesNothing(s, s')
  {
    hide FreesNothing;
    SameFrees(s, s');
  }

  // ----- steps that begin, enqueue or free -----

  /** What has returned was begun. */
  lemma ReturnedWasBegun(s: State, o: OpId)
    requires HistInv(s.hist, s.effects, s.req) && EffectIdInv(s.effects, s.req) && HasReturned(s.hist, o)
    ensures o in s.req
  {
    var out :| Ret(o, out) in s.hist;
    var j :| 0 <= j < |s.hist| && s.hist[j] == Ret(o, out);
    assert TookEffect(s.effects, o, out);
  }

  lemma BeginFrees(cfg: Config, s: State, step: Step)
    requires Invariant(cfg, s) && FreedInv(s) && Next(cfg, s, step).Some?
    requires step.WriteStep? || step.ReadStep?
    ensures FreedInv(Next(cfg, s, step).value)
  {
    var o := s.nextId;
    assert o !in s.req && HistInv(s.hist, s.effects, s.req) && EffectIdInv(s.effects, s.req);
    hide Invariant;
    if HasReturned(s.hist, o) {
      ReturnedWasBegun(s, o);
    }
    var r := if step.WriteStep? then WriteReq(step.name, step.call) else ReadReq(step.name, step.env);
    OneBegun(s.ops, if step.WriteStep? then s.ops[o := NsOp(step.name, step.call, None, false, None)] else s.ops,
             s.hist, s.req, o, r);
  }

  lemma OneBegun(ops: map<OpId, NsOp>, ops': map<OpId, NsOp>, hist: seq<Event>, req: map<OpId, Request>, o: OpId,
      r: Request)
    requires OpsFreed(ops, hist, req) && o !in req && !HasReturned(hist, o)
    requires forall p :: p in ops' <==> p in ops || (p == o && r.WriteReq?)
    ensures OpsFreed(ops', hist + [Inv(o, r)], req[o := r])
  {
    forall p ensures HasReturned(hist + [Inv(o, r)], p) <==> HasReturned(hist, p) {
      if out :| Ret(p, out) in hist {
        assert Ret(p, out) in hist + [Inv(o, r)];
      }
    }
  }

  lemma EnqueueFrees(cfg: Config, s: State, t: nat, o: OpId)
    requires Invariant(cfg, s) && FreedInv(s) && t in s.clients && s.clients[t] == Enq(o)
    ensures FreedInv(Enqueue(s, t, o))
  {
    hide Invariant, ModeInv, QueueInv, OpsFreed;
    QueueKnown(cfg, s);
    EnqueueKeepsOps(s, t, o);
    if TailAttached(s) {
      AttachedTailLives(s);
      WildStays(s, t, o);
    } else {
      DetachedQueue(s, o);
      LostIsNewest(s, t, o);
    }
  }

  lemma QueueKnown(cfg: Config, s: State)
    requires Invariant(cfg, s)
    ensures QueueInv(s.ops, s.arrived, s.taken, s.draining, s.qhead, s.qtail, s.lost)
  {
  }

  lemma LostIsNewest(s: State, t: nat, o: OpId)
    requires !TailAttached(s)
    ensures var s' := Enqueue(s, t, o); s'.lost == s.lost + [o] && s'.draining == s.draining && s'.qtail == Some(o)
  {
  }

  lemma WildStays(s: State, t: nat, o: OpId)
    requires TailAttached(s) && !TailFreed(s)
    ensures var s' := Enqueue(s, t, o);
            && s'.wild == s.wild && s'.draining == s.draining && s'.lost == s.lost
            && s'.arrived == s.arrived + [o] && s'.qtail == Some(o)
  {
  }

  lemma EnqueueKeepsOps(s: State, t: nat, o: OpId)
    requires OpsFreed(s.ops, s.hist, s.req)
    ensures OpsFreed(Enqueue(s, t, o).ops, Enqueue(s, t, o).hist, Enqueue(s, t, o).req)
  {
    hide HasReturned;
  }

  lemma CollectFrees(cfg: Config, s: State, t: nat, o: OpId)
    requires Invariant(cfg, s) && FreedInv(s) && t in s.clients && s.clients[t] == Collect(o)
    requires CollectOp(s, t, o).Some?
    ensures FreedInv(CollectOp(s, t, o).value)
  {
    hide Invariant;
    OneReturned(s.hist, o, Wrote(s.ops[o].result.value));
    hide HasReturned;
  }

  lemma OneReturned(hist: seq<Event>, o: OpId, out: Outcome)
    ensures forall p :: HasReturned(hist + [Ret(o, out)], p) <==> p == o || HasReturned(hist, p)
  {
    var hist' := hist + [Ret(o, out)];
    assert Ret(o, out) in hist';
    forall p | HasReturned(hist, p) ensures HasReturned(hist', p) {
      var x :| Ret(p, x) in hist;
      assert Ret(p, x) in hist';
    }
  }

  lemma ReadFrees(cfg: Config, s: State, t: nat, o: OpId, n: Name)
    requires FreedInv(s) && o in s.req && s.req[o].ReadReq?
    ensures FreedInv(ReadNow(cfg, s, t, o, n))
  {
    OneReturned(s.hist, o, Got(cfg.look(s.env, s.req[o].env, n)));
    hide HasReturned;
  }

  lemma ClientFrees(cfg: Config, s: State, t: nat)
    requires Invariant(cfg, s) && FreedInv(s) && t in s.clients && ClientNext(cfg, s, t).Some?
    ensures FreedInv(ClientNext(cfg, s, t).value)
  {
    hide Invariant, FreedInv, FreesNothing;
    var pc := s.clients[t];
    if ClientWants(pc) {
      ClientLockFrees(cfg, s, t);
      NothingFreed(s, ClientNext(cfg, s, t).value);
    } else if pc.Enq? {
      EnqueueFrees(cfg, s, t, pc.id);
    } else if pc.Collect? {
      CollectFrees(cfg, s, t, pc.id);
    } else if pc.Read? {
      ReadFrees(cfg, s, t, pc.id, pc.name);
    } else {
      OtherFrees(cfg, s, t);
      NothingFreed(s, ClientNext(cfg, s, t).value);
    }
  }

  lemma ClientLockFrees(cfg: Config, s: State, t: nat)
    requires t in s.clients && ClientWants(s.clients[t]) && ClientNext(cfg, s, t).Some?
    ensures FreesNothing(s, ClientNext(cfg, s, t).value)
  {
    var (m, pc') := ClientGoal(s.clients[t]);
    assert ClientNext(cfg, s, t) == ClientLock(s, t, m, pc');
    hide FreesNothing, ClientNext;
    ClientMoveFrees(s, ClientLock(s, t, m, pc').value, t, pc');
  }

  lemma OtherFrees(cfg: Config, s: State, t: nat)
    requires t in s.clients && ClientNext(cfg, s, t).Some?
    requires !ClientWants(s.clients[t]) && !s.clients[t].Enq? && !s.clients[t].Collect? && !s.clients[t].Read?
    ensures FreesNothing(s, ClientNext(cfg, s, t).value)
  {
    OtherMoves(cfg, s, t);
    hide FreesNothing, ClientNext;
    var m, pc' :| ClientNext(cfg, s, t) == Some(Move(Release(s, m), t, pc'));
    ClientMoveFrees(s, Move(Release(s, m), t, pc'), t, pc');
  }

  lemma StepFrees(cfg: Config, s: State, step: Step)
    requires Invariant(cfg, s) && FreedInv(s) && Next(cfg, s, step).Some?
    ensures FreedInv(Next(cfg, s, step).value)
  {
    hide Invariant, FreedInv, FreesNothing, PrepNext, ClientNext, CloserNext, BeginWrite, BeginRead;
    match step
    case PrepStep =>
      PrepFrees(cfg, s);
      NothingFreed(s, PrepNext(cfg, s).value);
    case CloserStep =>
      CloserFrees(s);
      NothingFreed(s, CloserNext(s).value);
    case ClientStep(t) => ClientFrees(cfg, s, t);
    case WriteStep(_, _, _) => BeginFrees(cfg, s, step);
    case ReadStep(_, _, _) => BeginFrees(cfg, s, step);
    case PrepSpurious => SignalFrees(s);
    case ClientSpurious(t) =>
      ClientMoveFrees(s, Move(s, t, Roused(s.clients[t])), t, Roused(s.clients[t]));
      NothingFreed(s, Move(s, t, Roused(s.clients[t])));
  }

  lemma SignalFrees(s: State)
    requires FreedInv(s)
    ensures FreedInv(s.(prep := Signalled(s.prep)))
  {
  }

  /** In every run operations exist until they return, and the tail is the newest operation if there is one. */
  lemma {:induction false} RunFrees(cfg: Config, steps: seq<Step>)
    requires Run(cfg, steps).Some?
    ensures Invariant(cfg, Run(cfg, steps).value) && FreedInv(Run(cfg, steps).value)
  {
    hide Invariant, Next;
    RunKeeps(cfg, steps);
    if steps != [] {
      hide FreedInv;
      RunFrees(cfg, steps[..|steps| - 1]);
      StepFrees(cfg, Run(cfg, steps[..|steps| - 1]).value, steps[|steps| - 1]);
    }
  }

  // ----- when the tail outlives its operation -----

  /**
   * A writer that is about to free its operation: the tail still points at it exactly if
   * the drain loop has emptied the queue and nothing has been enqueued since.
   */
  lemma TailLeftBehind(cfg: Config, s: State, t: nat, o: OpId)
    requires Invariant(cfg, s) && FreedInv(s) && t in s.clients && s.clients[t] == Collect(o)
    ensures s.qtail == Some(o) <==>
            s.qtail.Some? && s.lost == [] && Newest(s.arrived, []) == Some(o) && !TailAttached(s)
    ensures s.qtail == Some(o) ==> s.draining
  {
    CollectReady(s, t, o);
    assert ModeInv(s) && QueueInv(s.ops, s.arrived, s.taken, s.draining, s.qhead, s.qtail, s.lost);
    assert OpInv(s.ops, s.arrived, Finished(s), s.lost);
    hide Invariant, ModeInv, OpsFreed;
    assert o !in s.lost;
    if TailAttached(s) && s.qtail.Some? {
      assert QueuedAt(s.ops, s.arrived, |s.arrived| - 1);
    }
  }

  /** An enqueue writes into freed memory exactly if the tail is detached and its operation has returned. */
  lemma EnqueueWritesFreed(cfg: Config, s: State, t: nat, o: OpId)
    requires Invariant(cfg, s) && FreedInv(s) && t in s.clients && s.clients[t] == Enq(o)
    ensures TailFreed(s) <==> !TailAttached(s) && HasReturned(s.hist, s.qtail.value)
    ensures Enqueue(s, t, o).wild <==> s.wild || (!TailAttached(s) && HasReturned(s.hist, s.qtail.value))
    ensures s.lost != [] ==> !TailFreed(s)
  {
    assert QueueInv(s.ops, s.arrived, s.taken, s.draining, s.qhead, s.qtail, s.lost);
    assert OpInv(s.ops, s.arrived, Finished(s), s.lost);
    if s.qtail.Some? {
      TailIsWrite(cfg, s);
    }
    hide Invariant, HasReturned;
    if TailAttached(s) {
      AttachedTailLives(s);
    }
  }

  lemma TailIsWrite(cfg: Config, s: State)
    requires Invariant(cfg, s) && s.qtail.Some?
    ensures s.qtail.value in s.req && s.req[s.qtail.value].WriteReq?
  {
    assert QueueInv(s.ops, s.arrived, s.taken, s.draining, s.qhead, s.qtail, s.lost);
    assert OpInv(s.ops, s.arrived, Finished(s), s.lost);
    assert RequestInv(s.ops, s.arrived, s.req, s.nextId);
    hide Invariant;
  }

  /** Until the drain loop begins no write goes into freed memory. */
  lemma NeverWildWhileRunning(cfg: Config, s: State)
    requires Invariant(cfg, s) && FreedInv(s) && !s.draining
    ensures !TailFreed(s) && !s.wild
  {
    AttachedWhileRunning(cfg, s);
    assert QueueInv(s.ops, s.arrived, s.taken, s.draining, s.qhead, s.qtail, s.lost);
    hide Invariant;
    AttachedTailLives(s);
  }

  // ----- a run that writes into freed memory -----

  /** What the drain loop has made of the first write so far. */
  datatype Progress = Progress(registered: bool, executed: bool, completed: bool)

  /** The drain loop works on the first write; the prepare thread and the writer stand at `pc` and `w`. */
  function Draining(cfg: Config, c: Call, done: Progress, pc: PrepPc, w: ClientPc, owner: map<Mutex, Tid>): State {
    var (e, a) := cfg.exec(cfg.init, c);
    Stopping(cfg, c).(
      ops := map[0 := NsOp("a", c, None, done.completed, if done.executed then Some(a) else None),
                 1 := NsOp("b", c, None, false, None)],
      symbols := if done.registered then map["a" := Sym(None, None, 0)] else map[],
      owner := owner,
      prep := pc,
      clients := map[0 := w, 1 := EnqLock(1)],
      env := if done.executed then e else cfg.init,
      effects := if done.executed then [Effect(0, WriteReq("a", c), Wrote(a))] else [])
  }

  lemma DrainingLocks(cfg: Config, c: Call, done: Progress, pc: PrepPc, w: ClientPc)
    requires PrepWants(pc)
    ensures Next(cfg, Draining(cfg, c, done, pc, w, map[]), PrepStep)
            == Some(Draining(cfg, c, done, PrepGoal(pc).1, w, map[PrepGoal(pc).0 := Prep]))
  {
    var s := Draining(cfg, c, done, pc, w, map[]);
    var (m, pc') := PrepGoal(pc);
    assert PrepNext(cfg, s) == PrepLock(s, m, pc');
  }

  lemma DrainingFinds(cfg: Config, c: Call, w: ClientPc)
    ensures Next(cfg, Draining(cfg, c, Progress(false, false, false), Find(0), w, map[SymbolsMtx := Prep]), PrepStep)
            == Some(Draining(cfg, c, Progress(true, false, false), ExecLock(0, "a"), w, map[]))
  {
    var s := Draining(cfg, c, Progress(false, false, false), Find(0), w, map[SymbolsMtx := Prep]);
    assert s.owner - {SymbolsMtx} == map[];
    assert s.symbols["a" := Sym(None, None, 0)] == map["a" := Sym(None, None, 0)];
  }

  lemma DrainingExecutes(cfg: Config, c: Call, w: ClientPc)
    ensures Next(cfg, Draining(cfg, c, Progress(true, false, false), Exec(0, "a"), w, map[EnvMtx := Prep]), PrepStep)
            == Some(Draining(cfg, c, Progress(true, true, false), UnlinkLock(0, "a"), w, map[]))
  {
    var s := Draining(cfg, c, Progress(true, false, false), Exec(0, "a"), w, map[EnvMtx := Prep]);
    var s' := Draining(cfg, c, Progress(true, true, false), UnlinkLock(0, "a"), w, map[]);
    assert s.owner - {EnvMtx} == map[];
    assert s.ops[0 := s.ops[0].(result := s'.ops[0].result)] == s'.ops;
    assert s.effects + s'.effects == s'.effects;
  }

  lemma DrainingUnlinks(cfg: Config, c: Call)
    ensures Next(cfg,
            Draining(cfg, c, Progress(true, true, false), Unlink(0, "a"), WaitLock(0), map[SymLock("a") := Prep]),
            PrepStep)
            == Some(Draining(cfg, c, Progress(true, true, false), DoneLock(0), WaitLock(0), map[]))
  {
    var s := Draining(cfg, c, Progress(true, true, false), Unlink(0, "a"), WaitLock(0), map[SymLock("a") := Prep]);
    assert s.owner - {SymLock("a")} == map[];
    assert WakeReaders(s.clients, "a") == s.clients;
    assert s.symbols["a" := Sym(None, None, 0)] == s.symbols;
  }

  lemma DrainingCompletes(cfg: Config, c: Call)
    ensures Next(cfg, Draining(cfg, c, Progress(true, true, false), Done(0), WaitLock(0), map[DoneMtx(0) := Prep]),
            PrepStep)
            == Some(Draining(cfg, c, Progress(true, true, true), QLock, WaitLock(0), map[]))
  {
    var s := Draining(cfg, c, Progress(true, true, false), Done(0), WaitLock(0), map[DoneMtx(0) := Prep]);
    var s' := Draining(cfg, c, Progress(true, true, true), QLock, WaitLock(0), map[]);
    DoneStep(cfg, s, 0);
    hide Next, WakeWriter;
    NobodySleeps();
    assert s.owner - {DoneMtx(0)} == map[];
    assert s.ops[0 := s.ops[0].(completed := true)] == s'.ops;
  }

  lemma DoneStep(cfg: Config, s: State, o: OpId)
    requires s.prep == Done(o) && o in s.ops
    ensures Next(cfg, s, PrepStep) == Some(PrepDone(s, o))
  {
    hide WakeWriter;
  }

  lemma NobodySleeps()
    ensures var cs := map[0 := WaitLock(0), 1 := EnqLock(1)]; WakeWriter(cs, 0) == cs
  {
  }

  lemma DrainedWriterLocks(cfg: Config, c: Call)
    ensures Next(cfg, Draining(cfg, c, Progress(true, true, true), QLock, WaitLock(0), map[]), ClientStep(0))
            == Some(Draining(cfg, c, Progress(true, true, true), QLock, WaitCheck(0), map[DoneMtx(0) := Client(0)]))
  {
    var s := Draining(cfg, c, Progress(true, true, true), QLock, WaitLock(0), map[]);
    assert s.clients[0 := WaitCheck(0)] == map[0 := WaitCheck(0), 1 := EnqLock(1)];
  }

  lemma DrainedWriterChecks(cfg: Config, c: Call)
    ensures Next(cfg, Draining(cfg, c, Progress(true, true, true), QLock, WaitCheck(0), map[DoneMtx(0) := Client(0)]),
            ClientStep(0))
            == Some(Draining(cfg, c, Progress(true, true, true), QLock, Collect(0), map[]))
  {
    var s := Draining(cfg, c, Progress(true, true, true), QLock, WaitCheck(0), map[DoneMtx(0) := Client(0)]);
    assert s.clients[0 := Collect(0)] == map[0 := Collect(0), 1 := EnqLock(1)];
    assert s.owner - {DoneMtx(0)} == map[];
  }

  /** The writer frees the operation that the tail still points at. */
  lemma DrainedWriterFrees(cfg: Config, c: Call, s: State)
    requires s == Draining(cfg, c, Progress(true, true, true), QLock, Collect(0), map[])
    ensures Next(cfg, s, ClientStep(0)) == CollectOp(s, 0, 0) && CollectOp(s, 0, 0).Some?
    ensures
      var s' := CollectOp(s, 0, 0).value;
      s'.qtail == Some(0) && 0 !in s'.ops && s'.owner == map[] && 1 in s'.clients && s'.clients[1] == EnqLock(1)
  {
  }

  lemma DrainingBegins(cfg: Config, c: Call)
    ensures Stopping(cfg, c) == Draining(cfg, c, Progress(false, false, false), FindLock(0), WaitLock(0), map[])
  {
  }

  const FOUR_TIMES := [PrepStep] + ([PrepStep] + ([PrepStep] + ([PrepStep] + [])))

  lemma FirstHalf(cfg: Config, c: Call)
    ensures RunFrom(cfg, Stopping(cfg, c), FOUR_TIMES)
            == Some(Draining(cfg, c, Progress(true, true, false), UnlinkLock(0, "a"), WaitLock(0), map[]))
  {
    DrainingBegins(cfg, c);
    hide Next, Stopping, Draining;
    var w, no := WaitLock(0), Progress(false, false, false);
    DrainingLocks(cfg, c, no, FindLock(0), w);
    DrainingFinds(cfg, c, w);
    DrainingLocks(cfg, c, Progress(true, false, false), ExecLock(0, "a"), w);
    DrainingExecutes(cfg, c, w);
    FirstOf(cfg, Stopping(cfg, c), PrepStep, [PrepStep] + ([PrepStep] + ([PrepStep] + [])));
    FirstOf(cfg, Draining(cfg, c, no, Find(0), w, map[SymbolsMtx := Prep]), PrepStep, [PrepStep] + ([PrepStep] + []));
    FirstOf(cfg, Draining(cfg, c, Progress(true, false, false), ExecLock(0, "a"), w, map[]), PrepStep, [PrepStep] + []);
    FirstOf(cfg, Draining(cfg, c, Progress(true, false, false), Exec(0, "a"), w, map[EnvMtx := Prep]), PrepStep, []);
  }

  lemma SecondHalf(cfg: Config, c: Call)
    ensures RunFrom(cfg, Draining(cfg, c, Progress(true, true, false), UnlinkLock(0, "a"), WaitLock(0), map[]),
            FOUR_TIMES)
            == Some(Draining(cfg, c, Progress(true, true, true), QLock, WaitLock(0), map[]))
  {
    hide Next, Draining;
    var w, done := WaitLock(0), Progress(true, true, false);
    DrainingLocks(cfg, c, done, UnlinkLock(0, "a"), w);
    DrainingUnlinks(cfg, c);
    DrainingLocks(cfg, c, done, DoneLock(0), w);
    DrainingCompletes(cfg, c);
    FirstOf(cfg, Draining(cfg, c, done, UnlinkLock(0, "a"), w, map[]), PrepStep,
        [PrepStep] + ([PrepStep] + ([PrepStep] + [])));
    FirstOf(cfg, Draining(cfg, c, done, Unlink(0, "a"), w, map[SymLock("a") := Prep]), PrepStep,
        [PrepStep] + ([PrepStep] + []));
    FirstOf(cfg, Draining(cfg, c, done, DoneLock(0), w, map[]), PrepStep, [PrepStep] + []);
    FirstOf(cfg, Draining(cfg, c, done, Done(0), w, map[DoneMtx(0) := Prep]), PrepStep, []);
  }

  const WRITER_LEAVES := [ClientStep(0)] + ([ClientStep(0)] + ([ClientStep(0)] + []))

  lemma Freeing(cfg: Config, c: Call)
    ensures
      var r := RunFrom(cfg, Draining(cfg, c, Progress(true, true, true), QLock, WaitLock(0), map[]), WRITER_LEAVES);
      r.Some? && TailFreed(r.value) && r.value.owner == map[] && 1 in r.value.clients
      && r.value.clients[1] == EnqLock(1)
  {
    hide Next, Draining;
    var done := Progress(true, true, true);
    DrainedWriterLocks(cfg, c);
    DrainedWriterChecks(cfg, c);
    var last := Draining(cfg, c, done, QLock, Collect(0), map[]);
    DrainedWriterFrees(cfg, c, last);
    FirstOf(cfg, Draining(cfg, c, done, QLock, WaitLock(0), map[]), ClientStep(0),
        [ClientStep(0)] + ([ClientStep(0)] + []));
    FirstOf(cfg, Draining(cfg, c, done, QLock, WaitCheck(0), map[DoneMtx(0) := Client(0)]), ClientStep(0),
        [ClientStep(0)] + []);
    FirstOf(cfg, last, ClientStep(0), []);
  }

  lemma WritingFreed(cfg: Config, s: State)
    requires TailFreed(s) && s.owner == map[] && 1 in s.clients && s.clients[1] == EnqLock(1)
    ensures RunFrom(cfg, s, [ClientStep(1)] + ([ClientStep(1)] + [])).Some?
    ensures RunFrom(cfg, s, [ClientStep(1)] + ([ClientStep(1)] + [])).value.wild
  {
    var s1 := Move(Take(s, QueueMtx, Client(1)), 1, Enq(1));
    FirstOf(cfg, s, ClientStep(1), [ClientStep(1)] + []);
    FirstOf(cfg, s1, ClientStep(1), []);
    assert Next(cfg, s1, ClientStep(1)) == Some(Enqueue(s1, 1, 1));
  }

  /**
   * A run that writes into freed memory.  As in the run that loses an operation the second
   * client's operation was begun while the buffer was running, but the first client has got
   * its result and freed its own when the second is enqueued.
   */
  lemma AFreedTailIsWritten(cfg: Config, c: Call) returns (steps: seq<Step>)
    ensures Run(cfg, steps).Some? && Run(cfg, steps).value.wild
  {
    QueuedReached(cfg, c);
    StoppingReached(cfg, c);
    FirstHalf(cfg, c);
    SecondHalf(cfg, c);
    Freeing(cfg, c);
    hide Next, RunFrom, Queued, Stopping, Draining, Start, Run, TailFreed;
    var begun := [WriteStep(0, "a", c), ClientStep(0), ClientStep(0)];
    var stopped := [WriteStep(1, "b", c)] + ([CloserStep] + ([PrepStep] + ([PrepStep] + ([PrepStep] + []))));
    var written := [ClientStep(1)] + ([ClientStep(1)] + []);
    Continued(cfg, begun, stopped);
    Continued(cfg, begun + stopped, FOUR_TIMES);
    Continued(cfg, begun + stopped + FOUR_TIMES, FOUR_TIMES);
    Continued(cfg, begun + stopped + FOUR_TIMES + FOUR_TIMES, WRITER_LEAVES);
    var freed := begun + stopped + FOUR_TIMES + FOUR_TIMES + WRITER_LEAVES;
    WritingFreed(cfg, Run(cfg, freed).value);
    Continued(cfg, freed, written);
    steps := freed + written;
  }
}
