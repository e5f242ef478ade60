/** What the buffer promises, for every number of clients and every interleaving. */
module NsBufferTheorems {
  import opened Common
  import opened EnvModel
  import opened NsBuffer
  import opened NsBufferInvariant
  import opened NsBufferClientSteps

  lemma {:induction false} RunKeeps(cfg: Config, steps: seq<Step>)
    requires Run(cfg, steps).Some?
    ensures Invariant(cfg, Run(cfg, steps).value)
  {
    hide Invariant, LockInv, ModeInv, QueueInv, OpInv, CurInv, RequestInv, SymInv, WriterInv, ReaderInv, DrainInv,
         OneOwner, EffectInv, EffectIdInv, ResultInv, HistInv, Next, Start;
    if steps == [] {
      Initially(cfg);
    } else {
      RunKeeps(cfg, steps[..|steps| - 1]);
      StepKeeps(cfg, Run(cfg, steps[..|steps| - 1]).value, steps[|steps| - 1]);
    }
  }

  // ----- linearizability -----

  /**
   * The effects are a linearization of the clients' history: a legal sequential run of
   * the environment, containing every operation that returned, with the value it
   * returned, only operations that were begun and each at most once, in an order that
   * respects real time.  Its writes are the executed operations in FIFO order.
   */
  ghost predicate Linearization(cfg: Config, s: State) {
    && Legal(cfg, s.effects)
    && s.env == EnvAfter(cfg, s.effects)
    && (forall j | 0 <= j < |s.hist| && s.hist[j].Ret? :: TookEffect(s.effects, s.hist[j].id, s.hist[j].out))
    && (forall k | 0 <= k < |s.effects| :: Inv(s.effects[k].id, s.effects[k].req) in s.hist)
    && (forall j, k | 0 <= j < k < |s.effects| :: s.effects[j].id != s.effects[k].id)
    && RealTimeOrder(s.hist, s.effects)
    && 0 <= Executed(s) <= |s.arrived|
    && WriteIds(s.effects) == s.arrived[..Executed(s)]
    && Distinct(s.arrived)
  }

  lemma Linearizable(cfg: Config, steps: seq<Step>)
    requires Run(cfg, steps).Some?
    ensures Linearization(cfg, Run(cfg, steps).value)
  {
    RunKeeps(cfg, steps);
    var s := Run(cfg, steps).value;
    hide LockInv, OpInv, CurInv, RequestInv, SymInv, WriterInv, ReaderInv, DrainInv, OneOwner, ResultInv, Run;
    forall k | 0 <= k < |s.effects| ensures Inv(s.effects[k].id, s.effects[k].req) in s.hist {
      assert s.effects[k].id in s.req;
    }
  }

  // ----- mutual exclusion -----

  /** No thread owns two mutexes and no mutex admits two threads. */
  lemma OneMutexOneThread(cfg: Config, s: State, t: Tid, u: Tid, m: Mutex, k: Mutex)
    requires Invariant(cfg, s)
    ensures m in s.owner && k in s.owner && s.owner[m] == s.owner[k] ==> m == k
    ensures Holds(s, t) == Some(m) && Holds(s, u) == Some(m) ==> t == u
  {
    hide ModeInv, QueueInv, OpInv, CurInv, RequestInv, SymInv, WriterInv, ReaderInv, DrainInv, OneOwner, EffectInv,
         EffectIdInv, ResultInv, HistInv;
  }

  /** A reader looks at the environment while the prepare thread is not changing it. */
  lemma ReadExcludesWrite(cfg: Config, s: State, t: nat)
    requires Invariant(cfg, s) && t in s.clients && s.clients[t].Read?
    ensures !s.prep.Exec?
    ensures forall u :: u in s.clients && s.clients[u].Read? ==> u == t
  {
    hide Invariant, LockInv, ModeInv, QueueInv, OpInv, CurInv, RequestInv, SymInv, WriterInv, ReaderInv, DrainInv,
         OneOwner, EffectInv, EffectIdInv, ResultInv, HistInv;
    OneMutexOneThread(cfg, s, Client(t), Prep, EnvMtx, EnvMtx);
    forall u | u in s.clients && s.clients[u].Read? ensures u == t {
      OneMutexOneThread(cfg, s, Client(t), Client(u), EnvMtx, EnvMtx);
    }
  }

  // ----- the two queues -----

  /** An operation in a symbol queue is alone there, and is not in the central queue. */
  lemma SymbolQueueHoldsCurrent(cfg: Config, s: State, n: Name)
    requires Invariant(cfg, s) && n in s.symbols
    ensures s.symbols[n].head == s.symbols[n].tail
    ensures s.symbols[n].pending == if s.symbols[n].head.Some? then 1 else 0
    ensures s.symbols[n].head.Some? ==>
              && CurOp(s.prep) == s.symbols[n].head
              && s.symbols[n].head.value in s.ops
              && s.ops[s.symbols[n].head.value].name == n
              && s.ops[s.symbols[n].head.value].next.None?
              && s.symbols[n].head.value !in s.arrived[s.taken..]
  {
    hide LockInv, OpInv, RequestInv, WriterInv, ReaderInv, DrainInv, OneOwner, EffectInv, EffectIdInv, ResultInv,
         HistInv;
  }

  /** Phase 4 removes the operation that phase 3 executed, and leaves the symbol drained. */
  lemma UnlinkRemovesExecuted(cfg: Config, s: State, o: OpId, n: Name)
    requires Invariant(cfg, s) && s.prep == Unlink(o, n) && !s.draining
    ensures n in s.symbols && s.symbols[n] == Sym(Some(o), Some(o), 1)
    ensures o in s.ops && PrepUnlink(s, o, n).symbols == s.symbols[n := Sym(None, None, 0)]
  {
    hide LockInv, OpInv, RequestInv, WriterInv, ReaderInv, DrainInv, OneOwner, EffectInv, EffectIdInv, ResultInv,
         HistInv;
  }

  /**
   * When a writer frees its operation the prepare thread, both queues and all other threads
   * are done with it.  Only the tail may still point at it, and only if it is detached from
   * the queue, which the drain loop makes it (NsBufferFreed.TailLeftBehind).
   */
  lemma FreedIsUnreachable(cfg: Config, s: State, t: nat, o: OpId)
    requires Invariant(cfg, s) && t in s.clients && s.clients[t] == Collect(o)
    ensures CurOp(s.prep) != Some(o)
    ensures o !in s.arrived[s.taken..] && o !in s.lost
    ensures TailAttached(s) ==> s.qtail != Some(o)
    ensures forall n :: n in s.symbols ==> s.symbols[n].head != Some(o) && s.symbols[n].tail != Some(o)
    ensures forall u :: u in s.clients && u != t ==> ClientOp(s.clients[u]) != Some(o)
    ensures ClientNext(cfg, s, t).Some?
  {
    hide LockInv, RequestInv, ReaderInv, DrainInv, EffectInv, EffectIdInv, HistInv;
    assert WriterOk(s.clients[t], s.ops, s.arrived, s.lost);
    CompletedResult(s, o);
    forall i | s.taken <= i < |s.arrived| ensures s.arrived[i] != o {
      assert QueuedAt(s.ops, s.arrived, i);
    }
  }

  // ----- what a reader waits for -----

  /**
   * A reader that finds its symbol drained leaves no operation on that symbol between
   * phase 2 and phase 4: each one taken off the central queue has been executed, or is
   * the current one and not yet linked; the drain loop never links it.
   */
  lemma DrainedMeansExecuted(cfg: Config, s: State, n: Name, i: nat)
    requires Invariant(cfg, s)
    requires n in s.symbols && s.symbols[n].pending == 0
    requires i < s.taken && i < |s.arrived| && s.arrived[i] in s.req && s.req[s.arrived[i]].name == n
    ensures || i < Executed(s)
            || (i == s.taken - 1 && (s.prep.FindLock? || s.prep.Find? || s.prep.LinkLock? || s.prep.Link?))
            || (i == s.taken - 1 && s.draining && (s.prep.ExecLock? || s.prep.Exec?))
  {
    hide LockInv, QueueInv, OpInv, WriterInv, ReaderInv, DrainInv, OneOwner, EffectInv, EffectIdInv, ResultInv, HistInv;
  }

  // ----- no lost wakeups -----

  /** Whoever sleeps on a condition variable sleeps on a condition that does not hold yet. */
  lemma NoLostWakeup(cfg: Config, s: State)
    requires Invariant(cfg, s)
    ensures s.prep == QAsleep ==> s.qhead.None?
    ensures s.prep == QAsleep && !s.running ==> s.closer == CloseLock || s.closer == CloseSignal
    ensures forall t :: t in s.clients && s.clients[t].WaitAsleep? ==>
              s.clients[t].id in s.ops && !s.ops[s.clients[t].id].completed
    ensures forall t :: t in s.clients && s.clients[t].DrainAsleep? ==>
              LinkedSym(s) == Some(s.clients[t].name)
  {
    hide LockInv, OpInv, CurInv, RequestInv, ReaderInv, OneOwner, EffectInv, EffectIdInv, ResultInv, HistInv;
    forall t | t in s.clients
      ensures WriterOk(s.clients[t], s.ops, s.arrived, s.lost) && DrainOk(s.clients[t], s.symbols)
    {
    }
  }
}
