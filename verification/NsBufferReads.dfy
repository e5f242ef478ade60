/**
 * Which writes a read sees.  A read waits for its symbol to drain, which counts only the
 * writes that the prepare thread has linked into the symbol queue.
 */
module NsBufferReads {
  import opened Common
  import opened EnvModel
  import opened NsBuffer
  import opened NsBufferInvariant
  import opened NsBufferPrepSteps
  import opened NsBufferClientSteps
  import opened NsBufferTheorems
  import opened NsBufferProgress

  // ----- what is waited for -----

  /**
   * The i-th arrival, a write to n, has been executed, or it is linked into the queue of n,
   * or the prepare thread already owns the lock of n to do so.
   */
  predicate WaitedFor(s: State, n: Name, i: nat)
    requires i < |s.arrived|
  {
    || i < Executed(s)
    || (i == s.taken - 1 && (s.prep == Link(s.arrived[i], n) || LinkedSym(s) == Some(n)))
  }

  /** Wherever o took effect, w had taken effect before. */
  ghost predicate After(es: seq<Effect>, w: OpId, o: OpId) {
    forall k | 0 <= k < |es| && es[k].id == o :: Precedes(es, w, k)
  }

  /** In every continuation the read o sees the write w. */
  ghost predicate Sees(cfg: Config, s: State, o: OpId, w: OpId) {
    forall steps | RunFrom(cfg, s, steps).Some? :: After(RunFrom(cfg, s, steps).value.effects, w, o)
  }

  // ----- effects -----

  lemma AfterMore(es: seq<Effect>, x: Effect, w: OpId, o: OpId)
    requires After(es, w, o) && (x.id == o ==> !NoEffectYet(es, w))
    ensures After(es + [x], w, o)
  {
    var es' := es + [x];
    forall k | 0 <= k < |es'| && es'[k].id == o ensures Precedes(es', w, k) {
      if k < |es| {
        assert Precedes(es, w, k);
        var m :| 0 <= m < k && es[m].id == w;
        assert es'[m].id == w;
      } else {
        var m :| 0 <= m < |es| && es[m].id == w;
        assert es'[m].id == w;
      }
    }
  }

  lemma {:induction false} WriteIdsAre(es: seq<Effect>, w: OpId)
    ensures w in WriteIds(es) <==> exists k :: 0 <= k < |es| && es[k].id == w && es[k].req.WriteReq?
  {
    if es != [] {
      var before := es[..|es| - 1];
      WriteIdsAre(before, w);
      if k :| 0 <= k < |es| && es[k].id == w && es[k].req.WriteReq? {
        assert k < |before| ==> before[k] == es[k];
      }
    }
  }

  /** An arrival has taken effect exactly if it has been executed. */
  lemma ExecutedHasEffect(cfg: Config, s: State, i: nat)
    requires Invariant(cfg, s) && i < |s.arrived|
    ensures i < Executed(s) <==> !NoEffectYet(s.effects, s.arrived[i])
  {
    var w := s.arrived[i];
    assert Distinct(s.arrived) && WriteIds(s.effects) == s.arrived[..Executed(s)] && 0 <= Executed(s) <= |s.arrived|;
    assert w in s.req && s.req[w].WriteReq? && EffectIdInv(s.effects, s.req);
    hide Invariant;
    WriteIdsAre(s.effects, w);
    if i < Executed(s) {
      assert s.arrived[..Executed(s)][i] == w;
    } else {
      assert w !in s.arrived[..Executed(s)];
    }
  }

  // ----- a write that is waited for stays ahead of the read -----

  predicate NotYetReading(pc: ClientPc, o: OpId, n: Name) {
    || pc == RegLock(o, n) || pc == Reg(o, n) || pc == DrainLock(o, n) || pc == Drain(o, n)
    || pc == DrainAsleep(o, n) || pc == DrainWake(o, n)
  }

  predicate Linking(pc: PrepPc, w: OpId, n: Name) {
    pc == Link(w, n) || pc == ExecLock(w, n) || pc == Exec(w, n)
  }

  ghost predicate Ahead(s: State, t: nat, o: OpId, n: Name, i: nat) {
    && i < |s.arrived| && After(s.effects, s.arrived[i], o)
    && o in s.req && s.req[o].ReadReq?
    && (|| i < Executed(s)
        || (i == s.taken - 1 && Linking(s.prep, s.arrived[i], n) && !s.draining && NoEffectYet(s.effects, o)
            && t in s.clients && NotYetReading(s.clients[t], o, n)))
  }

  /** Everything but the locks, the clients and the registry of requests stays. */
  ghost predicate Calm(s: State, s': State) {
    && s'.effects == s.effects && s.arrived <= s'.arrived && s'.taken == s.taken && s'.draining == s.draining
    && (s'.prep == s.prep || s'.prep == Signalled(s.prep))
    && (forall o :: o in s.req ==> o in s'.req && s'.req[o] == s.req[o])
  }

  lemma CalmKeepsAhead(s: State, s': State, t: nat, o: OpId, n: Name, i: nat)
    requires Ahead(s, t, o, n, i) && Calm(s, s')
    requires t in s.clients && NotYetReading(s.clients[t], o, n) ==>
             t in s'.clients && NotYetReading(s'.clients[t], o, n)
    ensures Ahead(s', t, o, n, i)
  {
    hide After, NoEffectYet;
  }

  // ----- the steps of the prepare thread -----

  lemma PrepKeepsAhead(cfg: Config, s: State, t: nat, o: OpId, n: Name, i: nat)
    requires Invariant(cfg, s) && Ahead(s, t, o, n, i) && PrepNext(cfg, s).Some?
    ensures Ahead(PrepNext(cfg, s).value, t, o, n, i)
  {
    hide Invariant, PrepNext, After, NoEffectYet;
    CurKnown(cfg, s);
    PrepDescends(cfg, s, 0);
    PrepPerforms(cfg, s);
    if s.prep.Exec? {
      CurIsWrite(cfg, s);
      var x :| PrepNext(cfg, s).value.effects == s.effects + [x] && x.id == s.prep.op;
      AfterMore(s.effects, x, s.arrived[i], o);
    } else if i >= Executed(s) {
      LinkingGoesOn(cfg, s, s.arrived[i], n);
    }
  }

  lemma CurIsWrite(cfg: Config, s: State)
    requires Invariant(cfg, s) && CurOp(s.prep).Some?
    ensures CurOp(s.prep).value in s.req && s.req[CurOp(s.prep).value].WriteReq?
  {
    assert CurInv(s.prep, s.ops, s.draining, s.symbols) && RequestInv(s.ops, s.arrived, s.req, s.nextId);
    hide Invariant;
  }

  /** Only the execution of the current operation is an effect, and no execution is taken back. */
  ghost predicate Performs(s: State, s': State) {
    && (s.prep.Exec? ==> exists x :: s'.effects == s.effects + [x] && x.id == s.prep.op)
    && (!s.prep.Exec? ==> s'.effects == s.effects)
    && Executed(s) <= Executed(s')
    && (s.prep.Exec? ==> Executed(s') == s.taken)
  }

  lemma PrepPerforms(cfg: Config, s: State)
    requires PrepNext(cfg, s).Some? && (s.qhead.Some? ==> s.qhead.value in s.ops)
    ensures Performs(s, PrepNext(cfg, s).value)
  {
    hide Performs, PrepCheck;
    if PrepWants(s.prep) {
      LockPerforms(cfg, s);
    } else if s.prep == QCheck {
      if s.qhead.Some? {
        DequeuePerforms(s);
      } else {
        EmptyPerforms(s);
      }
    } else {
      hide PrepNext;
      IdleNeverSteps(cfg, s);
      if s.prep.LoopTop? || s.prep.Find? || s.prep.Link? {
        EarlyPerforms(cfg, s);
      } else if s.prep.Exec? {
        ExecPerforms(cfg, s);
      } else {
        LatePerforms(cfg, s);
      }
    }
  }

  lemma LockPerforms(cfg: Config, s: State)
    requires PrepWants(s.prep) && PrepNext(cfg, s).Some?
    ensures Performs(s, PrepNext(cfg, s).value)
  {
    var (m, pc) := PrepGoal(s.prep);
    assert PrepNext(cfg, s) == PrepLock(s, m, pc);
  }

  lemma DequeuePerforms(s: State)
    requires s.prep == QCheck && s.qhead.Some? && s.qhead.value in s.ops
    ensures Performs(s, PrepCheck(s))
  {
  }

  lemma EmptyPerforms(s: State)
    requires s.prep == QCheck && s.qhead.None?
    ensures Performs(s, PrepCheck(s))
  {
  }

  lemma EarlyPerforms(cfg: Config, s: State)
    requires (s.prep.LoopTop? || s.prep.Find? || s.prep.Link?) && PrepNext(cfg, s).Some?
    ensures Performs(s, PrepNext(cfg, s).value)
  {
  }

  lemma ExecPerforms(cfg: Config, s: State)
    requires s.prep.Exec? && PrepNext(cfg, s).Some?
    ensures Performs(s, PrepNext(cfg, s).value)
  {
    var o := s.prep.op;
    assert PrepNext(cfg, s) == Some(PrepExec(cfg, s, o, s.prep.st));
    var x := Effect(o, WriteReq(s.ops[o].name, s.ops[o].call), Wrote(cfg.exec(s.env, s.ops[o].call).1));
    assert PrepExec(cfg, s, o, s.prep.st).effects == s.effects + [x];
  }

  lemma LatePerforms(cfg: Config, s: State)
    requires (s.prep.Unlink? || s.prep.Done?) && PrepNext(cfg, s).Some?
    ensures Performs(s, PrepNext(cfg, s).value)
  {
    hide WakeReaders, WakeWriter;
  }

  lemma LinkingGoesOn(cfg: Config, s: State, w: OpId, n: Name)
    requires Linking(s.prep, w, n) && !s.prep.Exec? && PrepNext(cfg, s).Some? && !s.draining
    ensures
      var s' := PrepNext(cfg, s).value;
      Linking(s'.prep, w, n) && s'.taken == s.taken && s'.draining == s.draining && s'.clients == s.clients
  {
    if s.prep.Link? {
      assert PrepNext(cfg, s) == Some(PrepLink(s, w, n));
    } else {
      assert PrepNext(cfg, s) == PrepLock(s, EnvMtx, Exec(w, n));
    }
  }

  // ----- the steps of the clients -----

  /** The reader itself comes no further than to wait. */
  lemma ReaderWaits(cfg: Config, s: State, t: nat, o: OpId, n: Name, w: OpId)
    requires Invariant(cfg, s) && t in s.clients && NotYetReading(s.clients[t], o, n) && ClientNext(cfg, s, t).Some?
    requires Linking(s.prep, w, n) && !s.draining
    ensures
      var s' := ClientNext(cfg, s, t).value;
      Calm(s, s') && t in s'.clients && NotYetReading(s'.clients[t], o, n)
  {
    hide Invariant, ClientNext, Calm, Linking;
    LinkedPending(cfg, s, t, w, n);
    ReaderAwake(cfg, s, t, o, n);
    var pc := s.clients[t];
    if ClientWants(pc) {
      ReaderLocks(cfg, s, t);
    } else {
      ReaderTests(cfg, s, t, o, n);
    }
  }

  lemma ReaderAwake(cfg: Config, s: State, t: nat, o: OpId, n: Name)
    requires t in s.clients && NotYetReading(s.clients[t], o, n) && ClientNext(cfg, s, t).Some?
    ensures ClientWants(s.clients[t]) || s.clients[t] == Reg(o, n) || s.clients[t] == Drain(o, n)
  {
    hide Enqueue, CollectOp, ReadNow, ClientLock, Move, Release;
  }

  lemma ReaderLocks(cfg: Config, s: State, t: nat)
    requires t in s.clients && ClientWants(s.clients[t]) && ClientNext(cfg, s, t).Some?
    ensures Calm(s, ClientNext(cfg, s, t).value)
    ensures ClientNext(cfg, s, t).value.clients == s.clients[t := ClientGoal(s.clients[t]).1]
  {
    var (m, pc) := ClientGoal(s.clients[t]);
    assert ClientNext(cfg, s, t) == ClientLock(s, t, m, pc);
  }

  lemma ReaderTests(cfg: Config, s: State, t: nat, o: OpId, n: Name)
    requires t in s.clients && (s.clients[t] == Reg(o, n) || s.clients[t] == Drain(o, n)) && n in s.symbols
    requires s.clients[t].Drain? ==> s.symbols[n].pending > 0
    ensures ClientNext(cfg, s, t).Some? && Calm(s, ClientNext(cfg, s, t).value)
    ensures ClientNext(cfg, s, t).value.clients ==
            s.clients[t := if s.clients[t].Reg? then DrainLock(o, n) else DrainAsleep(o, n)]
  {
    if s.clients[t].Reg? {
      assert ClientNext(cfg, s, t) == Some(Move(Release(s, SymbolsMtx), t, DrainLock(o, n)));
    } else {
      assert ClientNext(cfg, s, t) == Some(Move(Release(s, SymLock(n)), t, DrainAsleep(o, n)));
    }
  }

  lemma LinkedPending(cfg: Config, s: State, t: nat, w: OpId, n: Name)
    requires Invariant(cfg, s) && Linking(s.prep, w, n) && !s.draining && t in s.clients
    ensures n in s.symbols
    ensures s.clients[t].Drain? && s.clients[t].name == n ==> s.symbols[n].pending == 1
  {
    hide LockInv, QueueInv, OpInv, RequestInv, WriterInv, ReaderInv, DrainInv, OneOwner, EffectInv, EffectIdInv,
         ResultInv, HistInv;
    if s.clients[t].Drain? && s.clients[t].name == n && s.prep.Link? {
      OneMutexOneThread(cfg, s, Prep, Client(t), SymLock(n), SymLock(n));
      assert false;
    }
  }

  lemma ClientMoveCalm(s: State, u: nat, pc: ClientPc, owner: map<Mutex, Tid>)
    ensures Calm(s, Move(s.(owner := owner), u, pc))
  {
  }

  lemma CloserCalm(s: State)
    requires CloserNext(s).Some?
    ensures Calm(s, CloserNext(s).value) && CloserNext(s).value.clients == s.clients
  {
    hide Calm;
    if s.closer == Open {
      SameCalm(s, s.(running := false, closer := CloseLock));
    } else if s.closer == CloseLock {
      SameCalm(s, Take(s, QueueMtx, Closer).(closer := CloseSignal));
    } else if s.closer == CloseSignal {
      SameCalm(s, Release(s, QueueMtx).(prep := Signalled(s.prep), closer := Joining));
    } else {
      SameCalm(s, s.(closer := Closed));
    }
  }

  lemma SameCalm(s: State, s': State)
    requires s'.effects == s.effects && s'.arrived == s.arrived && s'.taken == s.taken && s'.draining == s.draining
    requires s'.req == s.req && (s'.prep == s.prep || s'.prep == Signalled(s.prep))
    ensures Calm(s, s')
  {
  }

  lemma BeginCalm(cfg: Config, s: State, step: Step)
    requires s.nextId !in s.req && Next(cfg, s, step).Some? && (step.WriteStep? || step.ReadStep?)
    ensures Calm(s, Next(cfg, s, step).value)
    ensures forall t :: t in s.clients && s.clients[t] != Idle ==>
              t in Next(cfg, s, step).value.clients && Next(cfg, s, step).value.clients[t] == s.clients[t]
  {
    if step.WriteStep? {
      assert Next(cfg, s, step) == BeginWrite(s, step.t, step.name, step.call);
    } else {
      assert Next(cfg, s, step) == BeginRead(s, step.t, step.name, step.env);
    }
  }

  lemma NextIdIsNew(cfg: Config, s: State)
    requires Invariant(cfg, s)
    ensures s.nextId !in s.req
  {
    assert RequestInv(s.ops, s.arrived, s.req, s.nextId);
    hide Invariant;
  }

  /** What a step of a client leaves alone, unless it reads. */
  ghost predicate CalmFor(s: State, s': State, u: nat) {
    && Calm(s, s')
    && forall t :: t in s.clients && t != u ==> t in s'.clients && s'.clients[t] == s.clients[t]
  }

  lemma MoveCalmFor(s: State, u: nat, pc: ClientPc, owner: map<Mutex, Tid>)
    ensures CalmFor(s, Move(s.(owner := owner), u, pc), u)
  {
  }

  lemma EnqueueCalm(cfg: Config, s: State, u: nat)
    requires u in s.clients && s.clients[u].Enq?
    ensures ClientNext(cfg, s, u).Some? && CalmFor(s, ClientNext(cfg, s, u).value, u)
  {
    assert ClientNext(cfg, s, u) == Some(Enqueue(s, u, s.clients[u].id));
  }

  lemma CollectCalm(cfg: Config, s: State, u: nat)
    requires u in s.clients && s.clients[u].Collect? && ClientNext(cfg, s, u).Some?
    ensures CalmFor(s, ClientNext(cfg, s, u).value, u)
  {
    assert ClientNext(cfg, s, u) == CollectOp(s, u, s.clients[u].id);
  }

  lemma LockCalm(cfg: Config, s: State, u: nat)
    requires u in s.clients && ClientWants(s.clients[u]) && ClientNext(cfg, s, u).Some?
    ensures CalmFor(s, ClientNext(cfg, s, u).value, u)
  {
    var (m, pc) := ClientGoal(s.clients[u]);
    assert ClientNext(cfg, s, u) == ClientLock(s, u, m, pc);
    hide ClientNext, CalmFor;
    MoveCalmFor(s, u, pc, Take(s, m, Client(u)).owner);
  }

  lemma OtherCalm(cfg: Config, s: State, u: nat)
    requires u in s.clients && ClientNext(cfg, s, u).Some?
    requires !ClientWants(s.clients[u]) && !s.clients[u].Enq? && !s.clients[u].Collect? && !s.clients[u].Read?
    ensures CalmFor(s, ClientNext(cfg, s, u).value, u)
  {
    OtherMoves(cfg, s, u);
    hide ClientNext, CalmFor;
    var m, pc' :| ClientNext(cfg, s, u) == Some(Move(Release(s, m), u, pc'));
    MoveCalmFor(s, u, pc', Release(s, m).owner);
  }

  lemma OtherClientCalm(cfg: Config, s: State, u: nat)
    requires u in s.clients && ClientNext(cfg, s, u).Some? && !s.clients[u].Read?
    ensures CalmFor(s, ClientNext(cfg, s, u).value, u)
  {
    hide CalmFor, ClientNext;
    var pc := s.clients[u];
    if ClientWants(pc) {
      LockCalm(cfg, s, u);
    } else if pc.Enq? {
      EnqueueCalm(cfg, s, u);
    } else if pc.Collect? {
      CollectCalm(cfg, s, u);
    } else {
      OtherCalm(cfg, s, u);
    }
  }

  /** While a reader waits nobody else reads on its behalf. */
  lemma OtherReader(cfg: Config, s: State, u: nat, t: nat, o: OpId, n: Name)
    requires Invariant(cfg, s) && u in s.clients && s.clients[u].Read?
    requires t in s.clients && NotYetReading(s.clients[t], o, n)
    ensures s.clients[u].id != o
  {
    assert OneOwner(s.clients, s.req);
    hide Invariant;
    assert u != t && ClientOp(s.clients[t]) == Some(o);
  }

  lemma ReadKeepsAhead(cfg: Config, s: State, u: nat, p: OpId, m: Name, t: nat, o: OpId, n: Name, i: nat)
    requires Invariant(cfg, s) && Ahead(s, t, o, n, i) && u in s.clients && s.clients[u] == Read(p, m)
    requires p in s.req && s.req[p].ReadReq?
    ensures Ahead(ReadNow(cfg, s, u, p, m), t, o, n, i)
  {
    hide Invariant, After, NoEffectYet;
    ExecutedHasEffect(cfg, s, i);
    if i >= Executed(s) {
      OtherReader(cfg, s, u, t, o, n);
    }
    var x := Effect(p, ReadReq(m, s.req[p].env), Got(cfg.look(s.env, s.req[p].env, m)));
    AfterMore(s.effects, x, s.arrived[i], o);
    ReadAddsEffect(cfg, s, u, p, m, x, t, o, n, i);
  }

  lemma ReadAddsEffect(cfg: Config, s: State, u: nat, p: OpId, m: Name, x: Effect, t: nat, o: OpId, n: Name, i: nat)
    requires Ahead(s, t, o, n, i) && u in s.clients && s.clients[u] == Read(p, m) && p in s.req && s.req[p].ReadReq?
    requires x == Effect(p, ReadReq(m, s.req[p].env), Got(cfg.look(s.env, s.req[p].env, m)))
    requires After(s.effects + [x], s.arrived[i], o) && (i >= Executed(s) ==> p != o)
    ensures Ahead(ReadNow(cfg, s, u, p, m), t, o, n, i)
  {
    hide After;
  }

  lemma ClientKeepsAhead(cfg: Config, s: State, u: nat, t: nat, o: OpId, n: Name, i: nat)
    requires Invariant(cfg, s) && Ahead(s, t, o, n, i) && u in s.clients && ClientNext(cfg, s, u).Some?
    ensures Ahead(ClientNext(cfg, s, u).value, t, o, n, i)
  {
    hide Invariant, After, NoEffectYet, Calm;
    if s.clients[u].Read? {
      ClientFacts(cfg, s, u);
      ReadKeepsAhead(cfg, s, u, s.clients[u].id, s.clients[u].name, t, o, n, i);
    } else {
      hide ClientNext;
      OtherClientCalm(cfg, s, u);
      if u == t && i >= Executed(s) {
        ReaderWaits(cfg, s, t, o, n, s.arrived[i]);
        CalmKeepsAhead(s, ClientNext(cfg, s, u).value, t, o, n, i);
      } else if i >= Executed(s) {
        CalmKeepsAhead(s, ClientNext(cfg, s, u).value, t, o, n, i);
      } else {
        CalmKeepsExecuted(s, ClientNext(cfg, s, u).value, t, o, n, i);
      }
    }
  }

  lemma CalmKeepsExecuted(s: State, s': State, t: nat, o: OpId, n: Name, i: nat)
    requires Ahead(s, t, o, n, i) && i < Executed(s) && Calm(s, s')
    ensures Ahead(s', t, o, n, i)
  {
    hide After, NoEffectYet;
  }

  lemma StepKeepsAhead(cfg: Config, s: State, step: Step, t: nat, o: OpId, n: Name, i: nat)
    requires Invariant(cfg, s) && Ahead(s, t, o, n, i) && Next(cfg, s, step).Some?
    ensures Ahead(Next(cfg, s, step).value, t, o, n, i)
  {
    hide Invariant, Ahead, Calm, PrepNext, ClientNext, CloserNext, BeginWrite, BeginRead;
    match step
    case PrepStep => PrepKeepsAhead(cfg, s, t, o, n, i);
    case CloserStep =>
      CloserCalm(s);
      CalmKeepsAhead(s, CloserNext(s).value, t, o, n, i);
    case ClientStep(u) => ClientKeepsAhead(cfg, s, u, t, o, n, i);
    case WriteStep(_, _, _) => BeginKeepsAhead(cfg, s, step, t, o, n, i);
    case ReadStep(_, _, _) => BeginKeepsAhead(cfg, s, step, t, o, n, i);
    case PrepSpurious =>
      SameCalm(s, s.(prep := Signalled(s.prep)));
      CalmKeepsAhead(s, s.(prep := Signalled(s.prep)), t, o, n, i);
    case ClientSpurious(u) => SpuriousKeepsAhead(s, u, t, o, n, i);
  }

  lemma BeginKeepsAhead(cfg: Config, s: State, step: Step, t: nat, o: OpId, n: Name, i: nat)
    requires Invariant(cfg, s) && Ahead(s, t, o, n, i) && Next(cfg, s, step).Some?
             && (step.WriteStep? || step.ReadStep?)
    ensures Ahead(Next(cfg, s, step).value, t, o, n, i)
  {
    hide Invariant, Ahead, Calm, Next;
    NextIdIsNew(cfg, s);
    BeginCalm(cfg, s, step);
    CalmKeepsAhead(s, Next(cfg, s, step).value, t, o, n, i);
  }

  lemma SpuriousKeepsAhead(s: State, u: nat, t: nat, o: OpId, n: Name, i: nat)
    requires Ahead(s, t, o, n, i) && u in s.clients
    ensures Ahead(Move(s, u, Roused(s.clients[u])), t, o, n, i)
  {
    hide Ahead, Calm;
    ClientMoveCalm(s, u, Roused(s.clients[u]), s.owner);
    CalmKeepsAhead(s, Move(s, u, Roused(s.clients[u])), t, o, n, i);
  }

  lemma {:induction false} RunKeepsAhead(cfg: Config, s: State, steps: seq<Step>, t: nat, o: OpId, n: Name, i: nat)
    requires Invariant(cfg, s) && Ahead(s, t, o, n, i) && RunFrom(cfg, s, steps).Some?
    ensures Ahead(RunFrom(cfg, s, steps).value, t, o, n, i)
    ensures RunFrom(cfg, s, steps).value.arrived[i] == s.arrived[i]
    decreases |steps|
  {
    FinishedGrows(cfg, s, steps);
    hide Invariant, Next, After, NoEffectYet;
    if steps != [] {
      hide Ahead;
      StepKeeps(cfg, s, steps[0]);
      StepKeepsAhead(cfg, s, steps[0], t, o, n, i);
      RunKeepsAhead(cfg, Next(cfg, s, steps[0]).value, steps[1..], t, o, n, i);
    }
  }

  // ----- a read that overtakes -----

  lemma {:induction false} RunFromOn(cfg: Config, s: State, a: seq<Step>, b: seq<Step>)
    requires RunFrom(cfg, s, a).Some?
    ensures RunFrom(cfg, s, a + b) == RunFrom(cfg, RunFrom(cfg, s, a).value, b)
    decreases |a|
  {
    hide Next;
    if a == [] {
      assert a + b == b;
    } else {
      assert (a + b)[1..] == a[1..] + b;
      RunFromOn(cfg, Next(cfg, s, a[0]).value, a[1..], b);
    }
  }

  lemma OneStep(cfg: Config, s: State, step: Step)
    requires Next(cfg, s, step).Some?
    ensures RunFrom(cfg, s, [step]) == Next(cfg, s, step)
  {
    hide Next;
    assert [step][1..] == [];
    assert RunFrom(cfg, Next(cfg, s, step).value, []) == Next(cfg, s, step);
  }

  /** The prepare thread, the symbols and the queue stay as they are. */
  ghost predicate Rests(s: State, s': State) {
    && s'.prep == s.prep && s'.symbols == s.symbols && s'.taken == s.taken && s'.arrived == s.arrived
    && s'.draining == s.draining
  }

  /** The prepare thread is not in the way of a reader of n. */
  predicate Clear(s: State, n: Name) {
    && PrepHolds(s.prep) != Some(SymbolsMtx) && PrepHolds(s.prep) != Some(SymLock(n))
    && PrepHolds(s.prep) != Some(EnvMtx)
    && LinkedSym(s) != Some(n)
  }

  predicate ReaderMutex(m: Mutex) {
    m == SymbolsMtx || m.SymLock? || m == EnvMtx
  }

  /** A client that owns such a mutex gives it up in its next step, and nothing else of note happens. */
  lemma ClientGivesUp(cfg: Config, s: State, u: nat, m: Mutex)
    requires Invariant(cfg, s) && u in s.clients && ClientHolds(s.clients[u]) == Some(m) && ReaderMutex(m)
    ensures ClientNext(cfg, s, u).Some?
    ensures
      var s' := ClientNext(cfg, s, u).value;
      && Rests(s, s') && s'.owner == s.owner - {m}
      && forall t :: t in s.clients && t != u ==> t in s'.clients && s'.clients[t] == s.clients[t]
  {
    hide Invariant, ClientNext, Rests;
    ClientFacts(cfg, s, u);
    var pc := s.clients[u];
    if pc.Reg? {
      GivesUpReg(cfg, s, u);
    } else if pc.Drain? {
      GivesUpDrain(cfg, s, u);
    } else {
      GivesUpRead(cfg, s, u);
    }
  }

  lemma GivesUpReg(cfg: Config, s: State, u: nat)
    requires u in s.clients && s.clients[u].Reg?
    ensures ClientNext(cfg, s, u).Some?
    ensures
      var pc, s' := s.clients[u], ClientNext(cfg, s, u).value;
      && Rests(s, s') && s'.owner == s.owner - {SymbolsMtx}
      && s'.clients ==
          s.clients[u := if pc.name in s.symbols then DrainLock(pc.id, pc.name) else ReadLock(pc.id, pc.name)]
  {
    hide Enqueue, CollectOp, ReadNow, ClientLock;
    var pc := s.clients[u];
    var pc' := if pc.name in s.symbols then DrainLock(pc.id, pc.name) else ReadLock(pc.id, pc.name);
    assert ClientNext(cfg, s, u) == Some(Move(Release(s, SymbolsMtx), u, pc'));
  }

  lemma GivesUpDrain(cfg: Config, s: State, u: nat)
    requires u in s.clients && s.clients[u].Drain? && s.clients[u].name in s.symbols
    ensures ClientNext(cfg, s, u).Some?
    ensures
      var pc, s' := s.clients[u], ClientNext(cfg, s, u).value;
      && Rests(s, s') && s'.owner == s.owner - {SymLock(pc.name)}
      && s'.clients == s.clients[u := if s.symbols[pc.name].pending > 0 then DrainAsleep(pc.id, pc.name)
                                      else ReadLock(pc.id, pc.name)]
  {
    hide Enqueue, CollectOp, ReadNow, ClientLock;
    var pc := s.clients[u];
    var pc' := if s.symbols[pc.name].pending > 0 then DrainAsleep(pc.id, pc.name) else ReadLock(pc.id, pc.name);
    assert ClientNext(cfg, s, u) == Some(Move(Release(s, SymLock(pc.name)), u, pc'));
  }

  lemma GivesUpRead(cfg: Config, s: State, u: nat)
    requires u in s.clients && s.clients[u].Read? && s.clients[u].id in s.req && s.req[s.clients[u].id].ReadReq?
    ensures ClientNext(cfg, s, u) == Some(ReadNow(cfg, s, u, s.clients[u].id, s.clients[u].name))
    ensures
      var s' := ClientNext(cfg, s, u).value;
      && Rests(s, s') && s'.owner == s.owner - {EnvMtx} && s'.clients == s.clients[u := Idle]
      && |s'.effects| == |s.effects| + 1 && s'.effects[|s.effects|].id == s.clients[u].id
  {
  }

  /** A reader that waits for a mutex the prepare thread does not own can get it in at most two steps. */
  lemma Acquire(cfg: Config, s: State, t: nat) returns (steps: seq<Step>)
    requires Invariant(cfg, s) && t in s.clients && ClientWants(s.clients[t])
    requires ReaderMutex(ClientGoal(s.clients[t]).0) && PrepHolds(s.prep) != Some(ClientGoal(s.clients[t]).0)
    ensures RunFrom(cfg, s, steps).Some?
    ensures
      var s' := RunFrom(cfg, s, steps).value;
      Invariant(cfg, s') && Rests(s, s') && t in s'.clients && s'.clients[t] == ClientGoal(s.clients[t]).1
  {
    hide Invariant, Next, RunFrom, ClientNext;
    var m := ClientGoal(s.clients[t]).0;
    var s1 := s;
    steps := [];
    NoStep(cfg, s);
    if m in s.owner {
      var u := OwnerIsClient(cfg, s, t, m);
      ClientGivesUp(cfg, s, u, m);
      ClientStepIs(cfg, s, u);
      s1 := ClientNext(cfg, s, u).value;
      StepKeeps(cfg, s, ClientStep(u));
      steps := [ClientStep(u)];
      OneStep(cfg, s, ClientStep(u));
    }
    FreeMutex(cfg, s1, t);
    ClientStepIs(cfg, s1, t);
    StepKeeps(cfg, s1, ClientStep(t));
    OneStep(cfg, s1, ClientStep(t));
    RunFromOn(cfg, s, steps, [ClientStep(t)]);
    steps := steps + [ClientStep(t)];
  }

  lemma NoStep(cfg: Config, s: State)
    ensures RunFrom(cfg, s, []) == Some(s)
  {
  }

  lemma ClientStepIs(cfg: Config, s: State, u: nat)
    requires u in s.clients
    ensures Next(cfg, s, ClientStep(u)) == ClientNext(cfg, s, u)
  {
    hide ClientNext;
  }

  lemma FreeMutex(cfg: Config, s: State, t: nat)
    requires t in s.clients && ClientWants(s.clients[t]) && ClientGoal(s.clients[t]).0 !in s.owner
    ensures ClientNext(cfg, s, t).Some? && Rests(s, ClientNext(cfg, s, t).value)
    ensures ClientNext(cfg, s, t).value.clients == s.clients[t := ClientGoal(s.clients[t]).1]
  {
    var (m, pc) := ClientGoal(s.clients[t]);
    assert ClientNext(cfg, s, t) == ClientLock(s, t, m, pc);
  }

  lemma OwnerIsClient(cfg: Config, s: State, t: nat, m: Mutex) returns (u: nat)
    requires Invariant(cfg, s) && m in s.owner && ReaderMutex(m) && PrepHolds(s.prep) != Some(m)
    requires t in s.clients && ClientHolds(s.clients[t]).None?
    ensures u in s.clients && u != t && ClientHolds(s.clients[u]) == Some(m)
  {
    OwnerHolds(cfg, s, m);
    hide Invariant;
    u := s.owner[m].n;
  }

  /** With the prepare thread out of the way a reader can go all the way while that thread rests. */
  lemma LetRead(cfg: Config, s: State, t: nat, o: OpId, n: Name) returns (steps: seq<Step>)
    requires Invariant(cfg, s) && Clear(s, n) && t in s.clients && s.clients[t] == RegLock(o, n)
    ensures RunFrom(cfg, s, steps).Some?
    ensures
      var f := RunFrom(cfg, s, steps).value;
      Invariant(cfg, f) && Rests(s, f) && exists k :: 0 <= k < |f.effects| && f.effects[k].id == o
  {
    hide Invariant, Next, RunFrom, ClientNext, SymInv;
    steps := Acquire(cfg, s, t);
    var s1 := RunFrom(cfg, s, steps).value;
    GivesUpReg(cfg, s1, t);
    var s2 := ClientTurn(cfg, s, steps, t);
    steps := steps + [ClientStep(t)];
    if n in s.symbols {
      var more := Acquire(cfg, s2, t);
      RunFromOn(cfg, s, steps, more);
      steps := steps + more;
      var s3 := RunFrom(cfg, s, steps).value;
      NothingPending(cfg, s3, n);
      GivesUpDrain(cfg, s3, t);
      s2 := ClientTurn(cfg, s, steps, t);
      steps := steps + [ClientStep(t)];
    }
    var last := Acquire(cfg, s2, t);
    RunFromOn(cfg, s, steps, last);
    steps := steps + last;
    var s4 := RunFrom(cfg, s, steps).value;
    ClientFacts(cfg, s4, t);
    GivesUpRead(cfg, s4, t);
    var s5 := ClientTurn(cfg, s, steps, t);
    steps := steps + [ClientStep(t)];
    assert s5.effects[|s4.effects|].id == o;
  }

  /** One more step of a client at the end of a run. */
  lemma ClientTurn(cfg: Config, s: State, steps: seq<Step>, t: nat) returns (s': State)
    requires RunFrom(cfg, s, steps).Some? && Invariant(cfg, RunFrom(cfg, s, steps).value)
    requires t in RunFrom(cfg, s, steps).value.clients && ClientNext(cfg, RunFrom(cfg, s, steps).value, t).Some?
    ensures ClientNext(cfg, RunFrom(cfg, s, steps).value, t) == Some(s')
    ensures RunFrom(cfg, s, steps + [ClientStep(t)]) == Some(s') && Invariant(cfg, s')
  {
    hide Invariant, Next, RunFrom, ClientNext;
    var s1 := RunFrom(cfg, s, steps).value;
    s' := ClientNext(cfg, s1, t).value;
    ClientStepIs(cfg, s1, t);
    StepKeeps(cfg, s1, ClientStep(t));
    OneStep(cfg, s1, ClientStep(t));
    RunFromOn(cfg, s, steps, [ClientStep(t)]);
  }

  lemma NothingPending(cfg: Config, s: State, n: Name)
    requires Invariant(cfg, s) && n in s.symbols && LinkedSym(s) != Some(n)
    ensures s.symbols[n].pending == 0
  {
    assert SymInv(s.symbols, LinkedSym(s), CurOp(s.prep));
    hide Invariant;
  }

  /** The i-th arrival is in the central queue, or was taken and not yet linked. */
  predicate Unlinked(s: State, i: nat) {
    i >= s.taken || (i == s.taken - 1 && (s.prep.FindLock? || s.prep.Find? || s.prep.LinkLock?))
  }

  /** How far the prepare thread is from being out of the way. */
  function ToClear(pc: PrepPc): nat {
    match pc
    case Find(_) => 6
    case Link(_, _) => 5
    case ExecLock(_, _) => 4
    case Exec(_, _) => 3
    case UnlinkLock(_, _) => 2
    case Unlink(_, _) => 1
    case _ => 0
  }

  /** A step of the prepare thread towards that. */
  ghost predicate Clears(s: State, s': State, t: nat) {
    && s'.taken == s.taken && s'.arrived == s.arrived && s'.draining == s.draining
    && ToClear(s'.prep) < ToClear(s.prep)
    && (s.prep.Find? ==> s'.prep.LinkLock?)
    && t in s.clients && t in s'.clients && s'.clients[t] == s.clients[t]
  }

  lemma StepClears(cfg: Config, s: State, t: nat)
    requires PrepNext(cfg, s).Some? && ToClear(s.prep) > 0 && !s.draining && t in s.clients && s.clients[t].RegLock?
    ensures Clears(s, PrepNext(cfg, s).value, t)
  {
    hide Clears, PrepNext;
    if PrepWants(s.prep) {
      LockClears(cfg, s, t);
    } else if s.prep.Find? || s.prep.Link? {
      EarlyClears(cfg, s, t);
    } else if s.prep.Exec? {
      ExecClears(cfg, s, t);
    } else {
      UnlinkClears(cfg, s, t);
    }
  }

  lemma LockClears(cfg: Config, s: State, t: nat)
    requires PrepWants(s.prep) && PrepNext(cfg, s).Some? && ToClear(s.prep) > 0 && t in s.clients
    ensures Clears(s, PrepNext(cfg, s).value, t)
  {
    var (m, pc) := PrepGoal(s.prep);
    assert PrepNext(cfg, s) == PrepLock(s, m, pc);
  }

  lemma EarlyClears(cfg: Config, s: State, t: nat)
    requires (s.prep.Find? || s.prep.Link?) && PrepNext(cfg, s).Some? && !s.draining && t in s.clients
    ensures Clears(s, PrepNext(cfg, s).value, t)
  {
  }

  lemma ExecClears(cfg: Config, s: State, t: nat)
    requires s.prep.Exec? && PrepNext(cfg, s).Some? && t in s.clients
    ensures Clears(s, PrepNext(cfg, s).value, t)
  {
    assert PrepNext(cfg, s) == Some(PrepExec(cfg, s, s.prep.op, s.prep.st));
  }

  lemma UnlinkClears(cfg: Config, s: State, t: nat)
    requires s.prep.Unlink? && PrepNext(cfg, s).Some? && t in s.clients && s.clients[t].RegLock?
    ensures Clears(s, PrepNext(cfg, s).value, t)
  {
    assert PrepNext(cfg, s) == Some(PrepUnlink(s, s.prep.op, s.prep.st));
  }

  /** Where the prepare thread is in the way, it can step, or it waits for a mutex that a client gives up at once. */
  lemma PrepCanClear(cfg: Config, s: State, t: nat, n: Name) returns (steps: seq<Step>)
    requires Invariant(cfg, s) && !Clear(s, n) && !s.draining && t in s.clients && s.clients[t].RegLock?
    ensures RunFrom(cfg, s, steps).Some?
    ensures
      var s' := RunFrom(cfg, s, steps).value;
      Invariant(cfg, s') && Rests(s, s') && PrepNext(cfg, s').Some? && t in s'.clients && s'.clients[t] == s.clients[t]
  {
    hide Invariant, Next, RunFrom, ClientNext, PrepNext;
    NoStep(cfg, s);
    steps := [];
    if PrepWants(s.prep) {
      var m := PrepGoal(s.prep).0;
      if m in s.owner {
        var u := OwnerIsClient(cfg, s, t, m);
        ClientGivesUp(cfg, s, u, m);
        ClientStepIs(cfg, s, u);
        StepKeeps(cfg, s, ClientStep(u));
        OneStep(cfg, s, ClientStep(u));
        steps := [ClientStep(u)];
        PrepLocks(cfg, ClientNext(cfg, s, u).value);
      } else {
        PrepLocks(cfg, s);
      }
    } else {
      PrepCanRelease(cfg, s, PrepHolds(s.prep).value);
    }
  }

  lemma PrepLocks(cfg: Config, s: State)
    requires PrepWants(s.prep) && PrepGoal(s.prep).0 !in s.owner
    ensures PrepNext(cfg, s).Some?
  {
  }

  /** The prepare thread gets out of the way without executing an operation that it has not linked. */
  lemma {:induction false} Settle(cfg: Config, s: State, t: nat, n: Name, i: nat) returns (steps: seq<Step>)
    requires Invariant(cfg, s) && !s.draining && t in s.clients && s.clients[t].RegLock? && Unlinked(s, i)
    ensures RunFrom(cfg, s, steps).Some?
    ensures
      var f := RunFrom(cfg, s, steps).value;
      && Invariant(cfg, f) && Clear(f, n) && Unlinked(f, i) && f.arrived == s.arrived
      && t in f.clients && f.clients[t] == s.clients[t]
    decreases ToClear(s.prep)
  {
    hide Invariant, Next, RunFrom, PrepNext;
    if Clear(s, n) {
      NoStep(cfg, s);
      steps := [];
    } else {
      var first := PrepCanClear(cfg, s, t, n);
      var s1 := RunFrom(cfg, s, first).value;
      StepClears(cfg, s1, t);
      PrepStepIs(cfg, s1);
      StepKeeps(cfg, s1, PrepStep);
      OneStep(cfg, s1, PrepStep);
      RunFromOn(cfg, s, first, [PrepStep]);
      var s2 := PrepNext(cfg, s1).value;
      var rest := Settle(cfg, s2, t, n, i);
      RunFromOn(cfg, s, first + [PrepStep], rest);
      steps := first + [PrepStep] + rest;
    }
  }

  // ----- exactly the writes that are waited for are seen -----

  /** What is not waited for is not linked. */
  lemma NotWaitedFor(cfg: Config, s: State, n: Name, i: nat)
    requires Invariant(cfg, s) && !s.draining && i < |s.arrived| && !WaitedFor(s, n, i)
    requires s.arrived[i] in s.req && s.req[s.arrived[i]].name == n
    ensures Unlinked(s, i)
  {
    if i == s.taken - 1 {
      CurNamed(cfg, s);
    }
    hide Invariant;
  }

  lemma CurNamed(cfg: Config, s: State)
    requires Invariant(cfg, s) && CurOp(s.prep).Some?
    ensures s.taken > 0 && s.arrived[s.taken - 1] == CurOp(s.prep).value
    ensures CurOp(s.prep).value in s.req
    ensures CurSym(s.prep).Some? ==> CurSym(s.prep).value == s.req[CurOp(s.prep).value].name
  {
    hide LockInv, QueueInv, OpInv, SymInv, WriterInv, ReaderInv, DrainInv, OneOwner, EffectInv, EffectIdInv,
         ResultInv, HistInv;
  }

  lemma WaitedForIsAhead(cfg: Config, s: State, t: nat, n: Name, f: EnvId, i: nat)
    requires Invariant(cfg, s) && !s.draining && BeginRead(s, t, n, f).Some? && i < |s.arrived| && WaitedFor(s, n, i)
    ensures Ahead(BeginRead(s, t, n, f).value, t, s.nextId, n, i)
  {
    FreshRead(cfg, s);
    if i >= Executed(s) {
      CurNamed(cfg, s);
    }
    hide Invariant;
  }

  lemma FreshRead(cfg: Config, s: State)
    requires Invariant(cfg, s)
    ensures NoEffectYet(s.effects, s.nextId)
  {
    assert EffectIdInv(s.effects, s.req) && RequestInv(s.ops, s.arrived, s.req, s.nextId);
    hide Invariant;
  }

  /** Not draining, since a read begins only while the buffer is running. */
  lemma RunningIsNotDraining(cfg: Config, s: State)
    requires Invariant(cfg, s) && s.running
    ensures !s.draining
  {
    assert ModeInv(s);
    hide Invariant;
  }

  lemma Overtakes(cfg: Config, s: State, t: nat, n: Name, f: EnvId, i: nat) returns (steps: seq<Step>)
    requires Invariant(cfg, s) && !s.draining && BeginRead(s, t, n, f).Some? && i < |s.arrived| && Unlinked(s, i)
    ensures RunFrom(cfg, BeginRead(s, t, n, f).value, steps).Some?
    ensures !After(RunFrom(cfg, BeginRead(s, t, n, f).value, steps).value.effects, s.arrived[i], s.nextId)
  {
    var s0 := BeginRead(s, t, n, f).value;
    assert s0.arrived == s.arrived && s0.taken == s.taken && s0.prep == s.prep && !s0.draining;
    assert t in s0.clients && s0.clients[t] == RegLock(s.nextId, n);
    ReadBegins(cfg, s, t, n, f);
    hide Invariant, RunFrom, BeginRead, Next;
    steps := Settle(cfg, s0, t, n, i);
    var s1 := RunFrom(cfg, s0, steps).value;
    var more := LetRead(cfg, s1, t, s.nextId, n);
    RunFromOn(cfg, s0, steps, more);
    steps := steps + more;
    var s2 := RunFrom(cfg, s0, steps).value;
    ExecutedHasEffect(cfg, s2, i);
    NoneBefore(s2.effects, s.arrived[i], s.nextId);
  }

  lemma NoneBefore(es: seq<Effect>, w: OpId, o: OpId)
    requires NoEffectYet(es, w) && exists k :: 0 <= k < |es| && es[k].id == o
    ensures !After(es, w, o)
  {
    var k :| 0 <= k < |es| && es[k].id == o;
    assert !Precedes(es, w, k);
  }

  /**
   * A read of n that begins now sees an arrived write to n in every continuation if and only
   * if that write has been executed, or is linked into the queue of n, or the prepare thread
   * owns the lock of n to link it.  It may overtake all others.
   */
  lemma ReadSeesExactly(cfg: Config, s: State, t: nat, n: Name, f: EnvId, i: nat)
    requires Invariant(cfg, s) && BeginRead(s, t, n, f).Some?
    requires i < |s.arrived| && s.arrived[i] in s.req && s.req[s.arrived[i]].name == n
    ensures Sees(cfg, BeginRead(s, t, n, f).value, s.nextId, s.arrived[i]) <==> WaitedFor(s, n, i)
  {
    assert s.running;
    RunningIsNotDraining(cfg, s);
    var s0 := BeginRead(s, t, n, f).value;
    ReadBegins(cfg, s, t, n, f);
    assert s0.arrived == s.arrived;
    hide Invariant, RunFrom, BeginRead, After;
    if WaitedFor(s, n, i) {
      WaitedForIsAhead(cfg, s, t, n, f, i);
      forall steps | RunFrom(cfg, s0, steps).Some?
        ensures After(RunFrom(cfg, s0, steps).value.effects, s.arrived[i], s.nextId)
      {
        RunKeepsAhead(cfg, s0, steps, t, s.nextId, n, i);
      }
    } else {
      NotWaitedFor(cfg, s, n, i);
      var steps := Overtakes(cfg, s, t, n, f, i);
    }
  }
}
