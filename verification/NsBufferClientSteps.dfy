/** Every step of a client, of the closing thread and every spurious wakeup keeps the invariant. */
module NsBufferClientSteps {
  import opened Common
  import opened EnvModel
  import opened NsBuffer
  import opened NsBufferInvariant
  import opened NsBufferPrepSteps

  /** One client moves to `pc`, keeping its operation; the others stay where they are. */
  lemma Moved(s: State, t: nat, pc: ClientPc, cs': map<nat, ClientPc>)
    requires t in s.clients && cs' == s.clients[t := pc]
    requires pc == Idle || ClientOp(pc) == ClientOp(s.clients[t])
    requires WriterInv(s.clients, s.ops, s.arrived, s.lost) && WriterOk(pc, s.ops, s.arrived, s.lost)
    requires ReaderInv(s.clients, s.req, s.effects) && ReaderOk(pc, s.req, s.effects)
    requires DrainInv(s.clients, s.symbols) && DrainOk(pc, s.symbols)
    requires OneOwner(s.clients, s.req)
    ensures WriterInv(cs', s.ops, s.arrived, s.lost)
    ensures ReaderInv(cs', s.req, s.effects)
    ensures DrainInv(cs', s.symbols)
    ensures OneOwner(cs', s.req)
  {
  }

  /** Taking a free mutex. */
  lemma KeepsClientLock(cfg: Config, s: State, t: nat, m: Mutex, pc: ClientPc)
    requires Invariant(cfg, s) && t in s.clients
    requires ClientLock(s, t, m, pc).Some? && ClientHolds(s.clients[t]).None? && ClientHolds(pc) == Some(m)
    requires s.clients[t] != Idle && ClientOp(pc) == ClientOp(s.clients[t])
    requires WriterOk(pc, s.ops, s.arrived, s.lost) && ReaderOk(pc, s.req, s.effects) && DrainOk(pc, s.symbols)
    ensures Invariant(cfg, ClientLock(s, t, m, pc).value)
  {
    hide LockInv, QueueInv, OpInv, CurInv, RequestInv, SymInv, WriterInv, ReaderInv, DrainInv, OneOwner, EffectInv,
         EffectIdInv, ResultInv, HistInv;
    hide WriterOk, ReaderOk, DrainOk;
    var s' := ClientLock(s, t, m, pc).value;
    Locked(s, s', m, Client(t));
    Moved(s, t, pc, s'.clients);
  }

  /** Giving the mutex up and moving on, with nothing else changed. */
  lemma KeepsClientUnlock(cfg: Config, s: State, t: nat, m: Mutex, pc: ClientPc)
    requires Invariant(cfg, s) && t in s.clients
    requires ClientHolds(s.clients[t]) == Some(m) && ClientHolds(pc).None?
    requires pc != Idle && ClientOp(pc) == ClientOp(s.clients[t])
    requires WriterOk(pc, s.ops, s.arrived, s.lost) && ReaderOk(pc, s.req, s.effects) && DrainOk(pc, s.symbols)
    ensures Invariant(cfg, Move(Release(s, m), t, pc))
  {
    hide LockInv, QueueInv, OpInv, CurInv, RequestInv, SymInv, WriterInv, ReaderInv, DrainInv, OneOwner, EffectInv,
         EffectIdInv, ResultInv, HistInv;
    hide WriterOk, ReaderOk, DrainOk;
    var s' := Move(Release(s, m), t, pc);
    Unlocked(s, s', m, Client(t));
    Moved(s, t, pc, s'.clients);
  }

  /** Waking up without a signal. */
  lemma KeepsSpurious(cfg: Config, s: State, t: nat)
    requires Invariant(cfg, s) && t in s.clients
    ensures Invariant(cfg, Move(s, t, Roused(s.clients[t])))
  {
    hide LockInv, QueueInv, OpInv, CurInv, RequestInv, SymInv, OneOwner, EffectInv, EffectIdInv, ResultInv, HistInv;
    var s' := Move(s, t, Roused(s.clients[t]));
    SameLocks(s, s');
    assert WriterOk(s.clients[t], s.ops, s.arrived, s.lost);
    assert ReaderOk(s.clients[t], s.req, s.effects);
    assert DrainOk(s.clients[t], s.symbols);
    Moved(s, t, Roused(s.clients[t]), s'.clients);
  }

  /** A signal to the prepare thread. */
  lemma KeepsSignal(cfg: Config, s: State)
    requires Invariant(cfg, s)
    ensures Invariant(cfg, s.(prep := Signalled(s.prep)))
  {
    hide LockInv, QueueInv, OpInv, RequestInv, WriterInv, ReaderInv, DrainInv, OneOwner, EffectInv, EffectIdInv,
         ResultInv, HistInv;
    SameLocks(s, s.(prep := Signalled(s.prep)));
  }

  lemma CloserSignalKeeps(cfg: Config, s: State)
    requires Invariant(cfg, s) && s.closer == CloseSignal && s.prep != QAsleep
    ensures Invariant(cfg, Release(s, QueueMtx).(closer := Joining))
  {
    hide LockInv, QueueInv, OpInv, CurInv, RequestInv, SymInv, WriterInv, ReaderInv, DrainInv, OneOwner, EffectInv,
         EffectIdInv, ResultInv, HistInv;
    Unlocked(s, Release(s, QueueMtx).(closer := Joining), QueueMtx, Closer);
  }

  lemma CloserOpenKeeps(cfg: Config, s: State)
    requires Invariant(cfg, s) && s.closer == Open
    ensures Invariant(cfg, s.(running := false, closer := CloseLock))
  {
    hide LockInv, QueueInv, OpInv, CurInv, RequestInv, SymInv, WriterInv, ReaderInv, DrainInv, OneOwner, EffectInv,
         EffectIdInv, ResultInv, HistInv;
    SameLocks(s, s.(running := false, closer := CloseLock));
  }

  lemma CloserLockKeeps(cfg: Config, s: State)
    requires Invariant(cfg, s) && s.closer == CloseLock && QueueMtx !in s.owner
    ensures Invariant(cfg, Take(s, QueueMtx, Closer).(closer := CloseSignal))
  {
    hide LockInv, QueueInv, OpInv, CurInv, RequestInv, SymInv, WriterInv, ReaderInv, DrainInv, OneOwner, EffectInv,
         EffectIdInv, ResultInv, HistInv;
    Locked(s, Take(s, QueueMtx, Closer).(closer := CloseSignal), QueueMtx, Closer);
  }

  lemma CloserJoinKeeps(cfg: Config, s: State)
    requires Invariant(cfg, s) && s.closer == Joining && s.prep == Exited
    ensures Invariant(cfg, s.(closer := Closed))
  {
    hide LockInv, QueueInv, OpInv, CurInv, RequestInv, SymInv, WriterInv, ReaderInv, DrainInv, OneOwner, EffectInv,
         EffectIdInv, ResultInv, HistInv;
    SameLocks(s, s.(closer := Closed));
  }

  lemma CloserKeeps(cfg: Config, s: State)
    requires Invariant(cfg, s) && CloserNext(s).Some?
    ensures Invariant(cfg, CloserNext(s).value)
  {
    hide Invariant, LockInv, ModeInv, QueueInv, OpInv, CurInv, RequestInv, SymInv, WriterInv, ReaderInv, DrainInv,
         OneOwner, EffectInv, EffectIdInv, ResultInv, HistInv;
    match s.closer
    case Open => CloserOpenKeeps(cfg, s);
    case CloseLock => CloserLockKeeps(cfg, s);
    case CloseSignal =>
      KeepsSignal(cfg, s);
      CloserSignalKeeps(cfg, s.(prep := Signalled(s.prep)));
    case Joining => CloserJoinKeeps(cfg, s);
  }

  // ----- a new operation -----

  /** The next number has never been used. */
  lemma FreshId(s: State, o: OpId)
    requires RequestInv(s.ops, s.arrived, s.req, s.nextId) && EffectIdInv(s.effects, s.req)
             && OneOwner(s.clients, s.req)
    requires OpInv(s.ops, s.arrived, Finished(s), s.lost)
    requires o == s.nextId
    ensures o !in s.req && o !in s.ops && o !in s.arrived && o !in s.lost && NoEffectYet(s.effects, o)
    ensures forall t :: t in s.clients && s.clients[t] != Idle ==> ClientOp(s.clients[t]).value != o
  {
  }

  /** Recording a request for a number that has not been used. */
  lemma Requested(s: State, o: OpId, r: Request)
    requires o !in s.req && NoEffectYet(s.effects, o)
    requires ReaderInv(s.clients, s.req, s.effects)
    requires EffectIdInv(s.effects, s.req)
    requires HistInv(s.hist, s.effects, s.req)
    ensures ReaderInv(s.clients, s.req[o := r], s.effects)
    ensures EffectIdInv(s.effects, s.req[o := r])
    ensures HistInv(s.hist + [Inv(o, r)], s.effects, s.req[o := r])
  {
    forall t | t in s.clients ensures ReaderOk(s.clients[t], s.req[o := r], s.effects) {
      assert ReaderOk(s.clients[t], s.req, s.effects);
    }
    var hist' := s.hist + [Inv(o, r)];
    assert hist'[|s.hist|] == Inv(o, r);
    assert forall e :: e in s.hist ==> e in hist';
  }

  lemma BegunWriteOps(s: State, t: nat, o: OpId, x: NsOp)
    requires o !in s.ops && o !in s.req && o !in s.arrived && o !in s.lost && o == s.nextId
    requires x.next.None? && !x.completed && (t in s.clients ==> s.clients[t] == Idle)
    requires QueueInv(s.ops, s.arrived, s.taken, s.draining, s.qhead, s.qtail, s.lost)
    requires OpInv(s.ops, s.arrived, Finished(s), s.lost)
    requires RequestInv(s.ops, s.arrived, s.req, s.nextId)
    requires WriterInv(s.clients, s.ops, s.arrived, s.lost)
    requires ResultInv(s.ops, s.arrived, Executed(s), s.effects)
    ensures QueueInv(s.ops[o := x], s.arrived, s.taken, s.draining, s.qhead, s.qtail, s.lost)
    ensures OpInv(s.ops[o := x], s.arrived, Finished(s), s.lost)
    ensures RequestInv(s.ops[o := x], s.arrived, s.req[o := WriteReq(x.name, x.call)], o + 1)
    ensures WriterInv(s.clients[t := EnqLock(o)], s.ops[o := x], s.arrived, s.lost)
    ensures ResultInv(s.ops[o := x], s.arrived, Executed(s), s.effects)
  {
    var ops' := s.ops[o := x];
    forall i | s.taken <= i < |s.arrived| ensures QueuedAt(ops', s.arrived, i) {
      assert QueuedAt(s.ops, s.arrived, i);
    }
    forall u | u in s.clients && u != t ensures WriterOk(s.clients[u], ops', s.arrived, s.lost) {
      assert WriterOk(s.clients[u], s.ops, s.arrived, s.lost);
    }
    forall i | 0 <= i < Executed(s) ensures ResultAt(ops', s.arrived[i], s.effects) {
      assert ResultAt(s.ops, s.arrived[i], s.effects);
    }
  }

  /** A client that was idle takes up an operation nobody works on. */
  lemma Joined(s: State, t: nat, o: OpId, pc: ClientPc, r: Request)
    requires t in s.clients ==> s.clients[t] == Idle
    requires pc != Idle && ClientOp(pc) == Some(o)
    requires forall u :: u in s.clients && s.clients[u] != Idle ==> ClientOp(s.clients[u]).value != o
    requires OneOwner(s.clients, s.req)
    ensures OneOwner(s.clients[t := pc], s.req[o := r])
  {
  }

  lemma WriteBegins(cfg: Config, s: State, t: nat, n: Name, c: Call)
    requires Invariant(cfg, s) && BeginWrite(s, t, n, c).Some?
    ensures Invariant(cfg, BeginWrite(s, t, n, c).value)
  {
    hide LockInv, QueueInv, OpInv, RequestInv, SymInv, WriterInv, ReaderInv, OneOwner, EffectInv, EffectIdInv,
         ResultInv, HistInv;
    hide NoEffectYet;
    var s' := BeginWrite(s, t, n, c).value;
    var o := s.nextId;
    FreshId(s, o);
    SameLocks(s, s');
    Requested(s, o, WriteReq(n, c));
    BegunWriteOps(s, t, o, NsOp(n, c, None, false, None));
    Joined(s, t, o, EnqLock(o), WriteReq(n, c));
    assert ReaderInv(s'.clients, s'.req, s'.effects) by {
      WriterIsNoReader(s.clients, t, o, s'.req, s.effects);
    }
  }

  lemma WriterIsNoReader(cs: map<nat, ClientPc>, t: nat, o: OpId, req: map<OpId, Request>, es: seq<Effect>)
    requires ReaderInv(cs, req, es)
    ensures ReaderInv(cs[t := EnqLock(o)], req, es)
  {
  }

  lemma BegunRead(s: State, t: nat, o: OpId, n: Name, f: EnvId)
    requires o !in s.req && o == s.nextId && NoEffectYet(s.effects, o)
    requires RequestInv(s.ops, s.arrived, s.req, s.nextId)
    requires WriterInv(s.clients, s.ops, s.arrived, s.lost)
    requires ReaderInv(s.clients, s.req[o := ReadReq(n, f)], s.effects)
    ensures RequestInv(s.ops, s.arrived, s.req[o := ReadReq(n, f)], o + 1)
    ensures WriterInv(s.clients[t := RegLock(o, n)], s.ops, s.arrived, s.lost)
    ensures ReaderInv(s.clients[t := RegLock(o, n)], s.req[o := ReadReq(n, f)], s.effects)
  {
  }

  lemma ReadBegins(cfg: Config, s: State, t: nat, n: Name, f: EnvId)
    requires Invariant(cfg, s) && BeginRead(s, t, n, f).Some?
    ensures Invariant(cfg, BeginRead(s, t, n, f).value)
  {
    hide LockInv, QueueInv, OpInv, RequestInv, SymInv, WriterInv, ReaderInv, OneOwner, EffectInv, EffectIdInv,
         ResultInv, HistInv;
    hide NoEffectYet;
    var s' := BeginRead(s, t, n, f).value;
    var o := s.nextId;
    FreshId(s, o);
    SameLocks(s, s');
    Requested(s, o, ReadReq(n, f));
    BegunRead(s, t, o, n, f);
    Joined(s, t, o, RegLock(o, n), ReadReq(n, f));
  }

  // ----- joining the central queue -----

  lemma TailLinked(s: State, o: OpId)
    requires QueueInv(s.ops, s.arrived, s.taken, s.draining, s.qhead, s.qtail, s.lost)
    requires OpInv(s.ops, s.arrived, Finished(s), s.lost)
    requires RequestInv(s.ops, s.arrived, s.req, s.nextId)
    requires ResultInv(s.ops, s.arrived, Executed(s), s.effects)
    requires WriterInv(s.clients, s.ops, s.arrived, s.lost)
    ensures OpInv(Linked(s.ops, s.qtail, o), s.arrived, Finished(s), s.lost)
    ensures RequestInv(Linked(s.ops, s.qtail, o), s.arrived, s.req, s.nextId)
    ensures ResultInv(Linked(s.ops, s.qtail, o), s.arrived, Executed(s), s.effects)
    ensures WriterInv(s.clients, Linked(s.ops, s.qtail, o), s.arrived, s.lost)
  {
    hide OpInv, RequestInv, ResultInv, WriterInv;
    if s.qtail.Some? && s.qtail.value in s.ops {
      Relinked(s, s.qtail.value, Linked(s.ops, s.qtail, o), Finished(s), Executed(s));
    }
  }

  /** Behind an attached tail the new operation becomes the last of the queue. */
  lemma AttachedQueue(s: State, o: OpId)
    requires TailAttached(s)
    requires o in s.ops && !s.ops[o].completed && s.ops[o].next.None? && o !in s.arrived && o !in s.lost
    requires QueueInv(s.ops, s.arrived, s.taken, s.draining, s.qhead, s.qtail, s.lost)
    ensures QueueInv(Linked(s.ops, s.qtail, o), s.arrived + [o], s.taken, s.draining,
                     if s.qtail.Some? then s.qhead else Some(o), Some(o), s.lost)
  {
    var ops', a' := Linked(s.ops, s.qtail, o), s.arrived + [o];
    forall i | s.taken <= i < |a'| ensures QueuedAt(ops', a', i) {
      if i < |s.arrived| {
        assert QueuedAt(s.ops, s.arrived, i);
      }
    }
    assert Distinct(a');
  }

  /** Behind a detached tail it does not become part of the queue. */
  lemma DetachedQueue(s: State, o: OpId)
    requires !TailAttached(s)
    requires QueueInv(s.ops, s.arrived, s.taken, s.draining, s.qhead, s.qtail, s.lost)
    ensures s.taken == |s.arrived| && s.draining
    ensures QueueInv(Linked(s.ops, s.qtail, o), s.arrived, s.taken, s.draining, s.qhead, Some(o), s.lost + [o])
  {
  }

  /** The current operation's link is the tail's only in the drain loop. */
  lemma CurNotTail(s: State, o: OpId)
    requires ModeInv(s) && CurInv(s.prep, s.ops, s.draining, s.symbols)
    requires QueueInv(s.ops, s.arrived, s.taken, s.draining, s.qhead, s.qtail, s.lost)
    ensures CurInv(s.prep, Linked(s.ops, s.qtail, o), s.draining, s.symbols)
  {
  }

  lemma ArrivalGrows(cfg: Config, s: State, ops: map<OpId, NsOp>, t: nat, o: OpId)
    requires t in s.clients && s.clients[t] == Enq(o) && o in ops && o in s.req && s.req[o].WriteReq?
    requires o !in s.arrived && o !in s.lost
    requires OpInv(ops, s.arrived, Finished(s), s.lost)
    requires RequestInv(ops, s.arrived, s.req, s.nextId)
    requires ResultInv(ops, s.arrived, Executed(s), s.effects)
    requires WriterInv(s.clients, ops, s.arrived, s.lost) && OneOwner(s.clients, s.req)
    requires EffectInv(cfg, s.env, s.effects, s.arrived, Executed(s))
    ensures OpInv(ops, s.arrived + [o], Finished(s), s.lost)
    ensures RequestInv(ops, s.arrived + [o], s.req, s.nextId)
    ensures ResultInv(ops, s.arrived + [o], Executed(s), s.effects)
    ensures WriterInv(s.clients[t := WaitLock(o)], ops, s.arrived + [o], s.lost)
    ensures EffectInv(cfg, s.env, s.effects, s.arrived + [o], Executed(s))
  {
    var a' := s.arrived + [o];
    forall p | p in ops && ops[p].completed ensures Among(a', Finished(s), p) {
      assert Among(s.arrived, Finished(s), p);
      var i :| 0 <= i < Finished(s) && i < |s.arrived| && s.arrived[i] == p;
      assert a'[i] == p;
    }
    forall u | u in s.clients && u != t ensures WriterOk(s.clients[u], ops, a', s.lost) {
      assert WriterOk(s.clients[u], ops, s.arrived, s.lost);
      assert ClientOp(s.clients[t]) != ClientOp(s.clients[u]);
    }
    forall i | 0 <= i < Executed(s) ensures ResultAt(ops, a'[i], s.effects) {
      assert ResultAt(ops, s.arrived[i], s.effects);
    }
    assert a'[..Executed(s)] == s.arrived[..Executed(s)];
  }

  lemma LostGrows(s: State, ops: map<OpId, NsOp>, t: nat, o: OpId)
    requires t in s.clients && s.clients[t] == Enq(o)
    requires o in ops && !ops[o].completed && o !in s.arrived
    requires OpInv(ops, s.arrived, Finished(s), s.lost)
    requires WriterInv(s.clients, ops, s.arrived, s.lost) && OneOwner(s.clients, s.req)
    ensures OpInv(ops, s.arrived, Finished(s), s.lost + [o])
    ensures WriterInv(s.clients[t := WaitLock(o)], ops, s.arrived, s.lost + [o])
  {
    forall u | u in s.clients && u != t ensures WriterOk(s.clients[u], ops, s.arrived, s.lost + [o]) {
      assert WriterOk(s.clients[u], ops, s.arrived, s.lost);
      assert ClientOp(s.clients[t]) != ClientOp(s.clients[u]);
    }
  }

  lemma EnqueueKeepsRest(s: State, t: nat, o: OpId)
    requires t in s.clients && s.clients[t] == Enq(o)
    requires ReaderInv(s.clients, s.req, s.effects)
    requires DrainInv(s.clients, s.symbols)
    requires OneOwner(s.clients, s.req)
    ensures ReaderInv(s.clients[t := WaitLock(o)], s.req, s.effects)
    ensures DrainInv(s.clients[t := WaitLock(o)], s.symbols)
    ensures OneOwner(s.clients[t := WaitLock(o)], s.req)
  {
  }

  lemma EnqueueFacts(s: State, t: nat, o: OpId)
    requires t in s.clients && s.clients[t] == Enq(o)
    requires WriterInv(s.clients, s.ops, s.arrived, s.lost)
    requires RequestInv(s.ops, s.arrived, s.req, s.nextId)
    ensures o in s.ops && !s.ops[o].completed && s.ops[o].next.None? && o !in s.arrived && o !in s.lost
    ensures o in s.req && s.req[o].WriteReq? && o in Linked(s.ops, s.qtail, o)
            && !Linked(s.ops, s.qtail, o)[o].completed
  {
    assert WriterOk(s.clients[t], s.ops, s.arrived, s.lost);
  }

  lemma ModeGrows(s: State, s': State, o: OpId)
    requires ModeInv(s) && s.prep != QAsleep
    requires s'.arrived == s.arrived + [o]
    requires s'.prep == s.prep && s'.taken == s.taken && s'.closer == s.closer
    requires s'.draining == s.draining && s'.running == s.running
    ensures ModeInv(s')
  {
  }

  /** What an enqueue behind an attached tail changes. */
  lemma AttachedEnqueue(s: State, t: nat, o: OpId)
    requires TailAttached(s) && s.prep != QAsleep
    ensures
      var s' := Enqueue(s, t, o);
      && s'.ops == Linked(s.ops, s.qtail, o) && s'.arrived == s.arrived + [o] && s'.qtail == Some(o)
      && s'.qhead == (if s.qtail.Some? then s.qhead else Some(o))
      && s'.owner == s.owner - {QueueMtx} && s'.clients == s.clients[t := WaitLock(o)]
      && s' == s.(ops := s'.ops, arrived := s'.arrived, qhead := s'.qhead, qtail := s'.qtail, owner := s'.owner,
                  clients := s'.clients, wild := s'.wild)
      && Executed(s') == Executed(s) && Finished(s') == Finished(s) && LinkedSym(s') == LinkedSym(s)
  {
  }

  lemma EnqueueAttachedKeeps(cfg: Config, s: State, t: nat, o: OpId)
    requires Invariant(cfg, s) && s.prep != QAsleep && TailAttached(s)
    requires t in s.clients && s.clients[t] == Enq(o)
    ensures Invariant(cfg, Enqueue(s, t, o))
  {
    hide LockInv, ModeInv, QueueInv, OpInv, CurInv, RequestInv, SymInv, WriterInv, ReaderInv, DrainInv, OneOwner,
         EffectInv, EffectIdInv, ResultInv, HistInv,
         Enqueue, TailAttached, Linked, Executed, Finished, LinkedSym;
    var s' := Enqueue(s, t, o);
    AttachedEnqueue(s, t, o);
    EnqueueFacts(s, t, o);
    TailLinked(s, o);
    CurNotTail(s, o);
    EnqueueKeepsRest(s, t, o);
    Unlocked(s, s', QueueMtx, Client(t));
    AttachedQueue(s, o);
    ArrivalGrows(cfg, s, s'.ops, t, o);
    ModeGrows(s, s', o);
  }

  lemma EnqueueDetachedKeeps(cfg: Config, s: State, t: nat, o: OpId)
    requires Invariant(cfg, s) && s.prep != QAsleep && !TailAttached(s)
    requires t in s.clients && s.clients[t] == Enq(o)
    ensures Invariant(cfg, Enqueue(s, t, o))
  {
    hide LockInv, QueueInv, OpInv, CurInv, RequestInv, SymInv, WriterInv, ReaderInv, DrainInv, OneOwner, EffectInv,
         EffectIdInv, ResultInv, HistInv;
    var s' := Enqueue(s, t, o);
    EnqueueFacts(s, t, o);
    TailLinked(s, o);
    CurNotTail(s, o);
    EnqueueKeepsRest(s, t, o);
    Unlocked(s, s', QueueMtx, Client(t));
    DetachedQueue(s, o);
    LostGrows(s, s'.ops, t, o);
  }

  lemma EnqueueKeeps(cfg: Config, s: State, t: nat, o: OpId)
    requires Invariant(cfg, s)
    requires t in s.clients && s.clients[t] == Enq(o)
    ensures Invariant(cfg, Enqueue(s, t, o))
  {
    KeepsSignal(cfg, s);
    var s0 := s.(prep := Signalled(s.prep));
    assert Enqueue(s, t, o) == Enqueue(s0, t, o);
    hide LockInv, ModeInv, QueueInv, OpInv, CurInv, RequestInv, SymInv, WriterInv, ReaderInv, DrainInv, OneOwner,
         EffectInv, EffectIdInv, ResultInv, HistInv;
    if TailAttached(s) {
      EnqueueAttachedKeeps(cfg, s0, t, o);
    } else {
      EnqueueDetachedKeeps(cfg, s0, t, o);
    }
  }

  // ----- returning -----

  /** A completed operation carries the result it had when it took effect. */
  lemma CompletedResult(s: State, o: OpId)
    requires o in s.ops && s.ops[o].completed
    requires OpInv(s.ops, s.arrived, Finished(s), s.lost)
    requires ResultInv(s.ops, s.arrived, Executed(s), s.effects)
    ensures s.ops[o].result.Some? && TookEffect(s.effects, o, Wrote(s.ops[o].result.value))
  {
    assert Among(s.arrived, Finished(s), o);
    var i :| 0 <= i < Finished(s) && i < |s.arrived| && s.arrived[i] == o;
    assert ResultAt(s.ops, s.arrived[i], s.effects);
  }

  lemma Returned(hist: seq<Event>, es: seq<Effect>, req: map<OpId, Request>, o: OpId, out: Outcome)
    requires HistInv(hist, es, req) && TookEffect(es, o, out)
    ensures HistInv(hist + [Ret(o, out)], es, req)
  {
    var hist' := hist + [Ret(o, out)];
    assert forall e :: e in hist ==> e in hist';
  }

  lemma FreedOps(s: State, t: nat, o: OpId)
    requires t in s.clients && s.clients[t] == Collect(o) && o in s.ops && s.ops[o].completed
    requires QueueInv(s.ops, s.arrived, s.taken, s.draining, s.qhead, s.qtail, s.lost)
    requires OpInv(s.ops, s.arrived, Finished(s), s.lost)
    requires RequestInv(s.ops, s.arrived, s.req, s.nextId)
    requires WriterInv(s.clients, s.ops, s.arrived, s.lost) && OneOwner(s.clients, s.req)
    requires ResultInv(s.ops, s.arrived, Executed(s), s.effects)
    requires CurInv(s.prep, s.ops, s.draining, s.symbols)
    ensures
      var ops' := s.ops - {o};
      && QueueInv(ops', s.arrived, s.taken, s.draining, s.qhead, s.qtail, s.lost)
      && OpInv(ops', s.arrived, Finished(s), s.lost)
      && RequestInv(ops', s.arrived, s.req, s.nextId)
      && WriterInv(s.clients[t := Idle], ops', s.arrived, s.lost)
      && ResultInv(ops', s.arrived, Executed(s), s.effects)
      && CurInv(s.prep, ops', s.draining, s.symbols)
  {
    var ops' := s.ops - {o};
    forall i | s.taken <= i < |s.arrived| ensures QueuedAt(ops', s.arrived, i) {
      assert QueuedAt(s.ops, s.arrived, i);
    }
    forall u | u in s.clients && u != t ensures WriterOk(s.clients[u], ops', s.arrived, s.lost) {
      assert WriterOk(s.clients[u], s.ops, s.arrived, s.lost);
      assert ClientOp(s.clients[t]) != ClientOp(s.clients[u]);
    }
    forall i | 0 <= i < Executed(s) ensures ResultAt(ops', s.arrived[i], s.effects) {
      assert ResultAt(s.ops, s.arrived[i], s.effects);
    }
  }

  lemma IdleAgain(s: State, t: nat, es: seq<Effect>)
    requires ReaderInv(s.clients, s.req, es) && DrainInv(s.clients, s.symbols) && OneOwner(s.clients, s.req)
    ensures ReaderInv(s.clients[t := Idle], s.req, es)
    ensures DrainInv(s.clients[t := Idle], s.symbols)
    ensures OneOwner(s.clients[t := Idle], s.req)
  {
  }

  lemma CollectKeeps(cfg: Config, s: State, t: nat, o: OpId)
    requires Invariant(cfg, s) && t in s.clients && s.clients[t] == Collect(o)
    requires CollectOp(s, t, o).Some?
    ensures Invariant(cfg, CollectOp(s, t, o).value)
  {
    hide LockInv, QueueInv, OpInv, CurInv, RequestInv, SymInv, WriterInv, ReaderInv, DrainInv, OneOwner, EffectInv,
         EffectIdInv, ResultInv, HistInv;
    var s' := CollectOp(s, t, o).value;
    CollectReady(s, t, o);
    CompletedResult(s, o);
    Returned(s.hist, s.effects, s.req, o, Wrote(s.ops[o].result.value));
    FreedOps(s, t, o);
    IdleAgain(s, t, s.effects);
    SameLocks(s, s');
  }

  lemma CollectReady(s: State, t: nat, o: OpId)
    requires t in s.clients && s.clients[t] == Collect(o)
    requires WriterInv(s.clients, s.ops, s.arrived, s.lost)
    ensures o in s.ops && s.ops[o].completed
  {
    assert WriterOk(s.clients[t], s.ops, s.arrived, s.lost);
  }

  /** The read itself: the reader's own effect, which nobody else has had. */
  lemma ReadEffects(cfg: Config, s: State, t: nat, o: OpId, n: Name, x: Effect)
    requires t in s.clients && s.clients[t] == Read(o, n)
    requires o in s.req && s.req[o] == x.req && x.req.ReadReq?
    requires x == Effect(o, ReadReq(n, x.req.env), Got(cfg.look(s.env, x.req.env, n)))
    requires ReaderInv(s.clients, s.req, s.effects) && OneOwner(s.clients, s.req)
    requires EffectInv(cfg, s.env, s.effects, s.arrived, Executed(s)) && EffectIdInv(s.effects, s.req)
    requires ResultInv(s.ops, s.arrived, Executed(s), s.effects)
    requires forall p, out :: TookEffect(s.effects, p, out) ==> TookEffect(s.effects + [x], p, out)
    ensures EffectInv(cfg, s.env, s.effects + [x], s.arrived, Executed(s))
    ensures EffectIdInv(s.effects + [x], s.req)
    ensures ResultInv(s.ops, s.arrived, Executed(s), s.effects + [x])
    ensures ReaderInv(s.clients[t := Idle], s.req, s.effects + [x])
  {
    assert ReaderOk(s.clients[t], s.req, s.effects);
    LastEffect(cfg, s.effects, x);
    forall i | 0 <= i < Executed(s) ensures ResultAt(s.ops, s.arrived[i], s.effects + [x]) {
      assert ResultAt(s.ops, s.arrived[i], s.effects);
    }
    forall u | u in s.clients && u != t ensures ReaderOk(s.clients[u], s.req, s.effects + [x]) {
      assert ReaderOk(s.clients[u], s.req, s.effects);
      assert ClientOp(s.clients[t]) != ClientOp(s.clients[u]);
    }
  }

  lemma IdleKeeps(s: State, t: nat)
    requires WriterInv(s.clients, s.ops, s.arrived, s.lost)
    requires DrainInv(s.clients, s.symbols) && OneOwner(s.clients, s.req)
    ensures WriterInv(s.clients[t := Idle], s.ops, s.arrived, s.lost)
    ensures DrainInv(s.clients[t := Idle], s.symbols)
    ensures OneOwner(s.clients[t := Idle], s.req)
  {
  }

  lemma ReadRequest(s: State, t: nat, o: OpId, n: Name)
    requires t in s.clients && s.clients[t] == Read(o, n)
    requires ReaderInv(s.clients, s.req, s.effects)
    ensures o in s.req && s.req[o].ReadReq? && s.req[o].name == n
  {
    assert ReaderOk(s.clients[t], s.req, s.effects);
  }

  lemma ReadKeeps(cfg: Config, s: State, t: nat, o: OpId, n: Name)
    requires Invariant(cfg, s) && t in s.clients && s.clients[t] == Read(o, n)
    requires o in s.req && s.req[o].ReadReq?
    ensures Invariant(cfg, ReadNow(cfg, s, t, o, n))
  {
    hide LockInv, QueueInv, OpInv, CurInv, RequestInv, SymInv, WriterInv, ReaderInv, DrainInv, OneOwner, EffectInv,
         EffectIdInv, ResultInv, HistInv;
    hide TookEffect;
    ReadRequest(s, t, o, n);
    var f := s.req[o].env;
    var s' := ReadNow(cfg, s, t, o, n);
    var x := Effect(o, ReadReq(n, f), Got(cfg.look(s.env, f, n)));
    Unlocked(s, s', EnvMtx, Client(t));
    EffectAdded(s.hist, s.effects, s.req, x);
    Returned(s.hist, s.effects + [x], s.req, o, x.out);
    ReadEffects(cfg, s, t, o, n, x);
    IdleKeeps(s, t);
  }

  // ----- all steps -----

  /** What is known about a client from where it stands. */
  lemma ClientFacts(cfg: Config, s: State, t: nat)
    requires Invariant(cfg, s) && t in s.clients
    ensures WriterOk(s.clients[t], s.ops, s.arrived, s.lost)
    ensures ReaderOk(s.clients[t], s.req, s.effects)
    ensures DrainOk(s.clients[t], s.symbols)
  {
    hide LockInv, QueueInv, OpInv, CurInv, RequestInv, SymInv, OneOwner, EffectInv, EffectIdInv, ResultInv, HistInv;
  }

  /** Where a client waits for a mutex: which one, and where it goes on. */
  predicate ClientWants(pc: ClientPc) {
    || pc.EnqLock? || pc.WaitLock? || pc.WaitWake?
    || pc.RegLock? || pc.DrainLock? || pc.DrainWake? || pc.ReadLock?
  }

  function ClientGoal(pc: ClientPc): (Mutex, ClientPc)
    requires ClientWants(pc)
  {
    match pc
    case EnqLock(o) => (QueueMtx, Enq(o))
    case WaitLock(o) => (DoneMtx(o), WaitCheck(o))
    case WaitWake(o) => (DoneMtx(o), WaitCheck(o))
    case RegLock(o, n) => (SymbolsMtx, Reg(o, n))
    case DrainLock(o, n) => (SymLock(n), Drain(o, n))
    case DrainWake(o, n) => (SymLock(n), Drain(o, n))
    case ReadLock(o, n) => (EnvMtx, Read(o, n))
  }

  lemma KeepsClientLocking(cfg: Config, s: State, t: nat)
    requires Invariant(cfg, s) && t in s.clients && ClientWants(s.clients[t]) && ClientNext(cfg, s, t).Some?
    ensures Invariant(cfg, ClientNext(cfg, s, t).value)
  {
    hide Invariant, LockInv, ModeInv, QueueInv, OpInv, CurInv, RequestInv, SymInv, WriterInv, ReaderInv, DrainInv,
         OneOwner, EffectInv, EffectIdInv, ResultInv, HistInv;
    ClientFacts(cfg, s, t);
    var (m, pc) := ClientGoal(s.clients[t]);
    KeepsClientLock(cfg, s, t, m, pc);
  }

  /** Such a step gives a mutex up and moves on. */
  lemma OtherMoves(cfg: Config, s: State, t: nat)
    requires t in s.clients && ClientNext(cfg, s, t).Some?
    requires !ClientWants(s.clients[t]) && !s.clients[t].Enq? && !s.clients[t].Collect? && !s.clients[t].Read?
    ensures exists m, pc :: ClientNext(cfg, s, t) == Some(Move(Release(s, m), t, pc))
  {
    hide Move, Release, Enqueue, CollectOp, ReadNow, ClientLock;
    match s.clients[t]
    case WaitCheck(o) =>
      assert ClientNext(cfg, s, t) ==
        Some(Move(Release(s, DoneMtx(o)), t, if s.ops[o].completed then Collect(o) else WaitAsleep(o)));
    case Reg(o, n) =>
      assert ClientNext(cfg, s, t) ==
        Some(Move(Release(s, SymbolsMtx), t, if n in s.symbols then DrainLock(o, n) else ReadLock(o, n)));
    case Drain(o, n) =>
      assert ClientNext(cfg, s, t) ==
        Some(Move(Release(s, SymLock(n)), t, if s.symbols[n].pending > 0 then DrainAsleep(o, n) else ReadLock(o, n)));
  }

  lemma KeepsClientTesting(cfg: Config, s: State, t: nat)
    requires Invariant(cfg, s) && t in s.clients && ClientNext(cfg, s, t).Some?
    requires s.clients[t].WaitCheck? || s.clients[t].Reg? || s.clients[t].Drain?
    ensures Invariant(cfg, ClientNext(cfg, s, t).value)
  {
    hide Invariant, LockInv, ModeInv, QueueInv, OpInv, CurInv, RequestInv, SymInv, WriterInv, ReaderInv, DrainInv,
         OneOwner, EffectInv, EffectIdInv, ResultInv, HistInv;
    ClientFacts(cfg, s, t);
    match s.clients[t]
    case WaitCheck(o) =>
      KeepsClientUnlock(cfg, s, t, DoneMtx(o), if s.ops[o].completed then Collect(o) else WaitAsleep(o));
    case Reg(o, n) =>
      KeepsClientUnlock(cfg, s, t, SymbolsMtx, if n in s.symbols then DrainLock(o, n) else ReadLock(o, n));
    case Drain(o, n) =>
      KeepsClientUnlock(cfg, s, t, SymLock(n), if s.symbols[n].pending > 0 then DrainAsleep(o, n) else ReadLock(o, n));
  }

  lemma ClientKeeps(cfg: Config, s: State, t: nat)
    requires Invariant(cfg, s) && t in s.clients && ClientNext(cfg, s, t).Some?
    ensures Invariant(cfg, ClientNext(cfg, s, t).value)
  {
    hide Invariant, LockInv, ModeInv, QueueInv, OpInv, CurInv, RequestInv, SymInv, WriterInv, ReaderInv, DrainInv,
         OneOwner, EffectInv, EffectIdInv, ResultInv, HistInv;
    var pc := s.clients[t];
    if ClientWants(pc) {
      KeepsClientLocking(cfg, s, t);
    } else if pc.Enq? {
      EnqueueKeeps(cfg, s, t, pc.id);
    } else if pc.Collect? {
      CollectKeeps(cfg, s, t, pc.id);
    } else if pc.Read? {
      ReadKeeps(cfg, s, t, pc.id, pc.name);
    } else {
      KeepsClientTesting(cfg, s, t);
    }
  }

  /** The invariant holds at the start ... */
  lemma Initially(cfg: Config)
    ensures Invariant(cfg, Start(cfg))
  {
  }

  /** ... and every step of every thread keeps it. */
  lemma StepKeeps(cfg: Config, s: State, step: Step)
    requires Invariant(cfg, s) && Next(cfg, s, step).Some?
    ensures Invariant(cfg, Next(cfg, s, step).value)
  {
    hide Invariant, LockInv, ModeInv, QueueInv, OpInv, CurInv, RequestInv, SymInv, WriterInv, ReaderInv, DrainInv,
         OneOwner, EffectInv, EffectIdInv, ResultInv, HistInv;
    match step
    case PrepStep => PrepKeeps(cfg, s);
    case CloserStep => CloserKeeps(cfg, s);
    case ClientStep(t) => ClientKeeps(cfg, s, t);
    case WriteStep(t, n, c) => WriteBegins(cfg, s, t, n, c);
    case ReadStep(t, n, f) => ReadBegins(cfg, s, t, n, f);
    case PrepSpurious => KeepsSignal(cfg, s);
    case ClientSpurious(t) => KeepsSpurious(cfg, s, t);
  }
}
