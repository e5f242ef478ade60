/** Every step of the prepare thread keeps the invariant. */
module NsBufferPrepSteps {
  import opened Common
  import opened EnvModel
  import opened NsBuffer
  import opened NsBufferInvariant

  /** Taking a free mutex changes nothing but who owns it. */
  lemma KeepsPrepLock(cfg: Config, s: State, m: Mutex, pc: PrepPc)
    requires Invariant(cfg, s)
    requires PrepLock(s, m, pc).Some? && PrepHolds(s.prep).None? && PrepHolds(pc) == Some(m)
    requires CurOp(pc) == CurOp(s.prep) && CurSym(pc) == CurSym(s.prep) && BeforeExec(pc) == BeforeExec(s.prep)
    requires pc.Unlink? == s.prep.UnlinkLock? && pc.Exec? == s.prep.ExecLock? && pc.Link? == s.prep.LinkLock?
    requires s.prep != Exited && s.prep != QAsleep && s.prep != LoopTop
    ensures Invariant(cfg, PrepLock(s, m, pc).value)
  {
    hide LockInv, QueueInv, OpInv, RequestInv, SymInv, WriterInv, ReaderInv, DrainInv, OneOwner, EffectInv,
         EffectIdInv, ResultInv, HistInv;
    Locked(s, PrepLock(s, m, pc).value, m, Prep);
  }

  lemma KeepsLoopTop(cfg: Config, s: State)
    requires Invariant(cfg, s)
    requires s.prep == LoopTop
    ensures Invariant(cfg, PrepNext(cfg, s).value)
  {
    hide LockInv, OpInv, RequestInv, SymInv, WriterInv, ReaderInv, DrainInv, OneOwner, EffectInv, EffectIdInv,
         ResultInv, HistInv;
    SameLocks(s, PrepNext(cfg, s).value);
  }

  lemma KeepsCheckEmpty(cfg: Config, s: State)
    requires Invariant(cfg, s)
    requires s.prep == QCheck && s.qhead.None?
    ensures Invariant(cfg, PrepNext(cfg, s).value)
  {
    hide LockInv, OpInv, RequestInv, SymInv, WriterInv, ReaderInv, DrainInv, OneOwner, EffectInv, EffectIdInv,
         ResultInv, HistInv;
    Unlocked(s, PrepNext(cfg, s).value, QueueMtx, Prep);
  }

  /** Changing the link of an operation concerns the two queues only. */
  lemma Relinked(s: State, o: OpId, ops': map<OpId, NsOp>, fin: int, exec: int)
    requires o in s.ops && o in ops' && ops' == s.ops[o := s.ops[o].(next := ops'[o].next)]
    requires OpInv(s.ops, s.arrived, fin, s.lost)
    requires RequestInv(s.ops, s.arrived, s.req, s.nextId)
    requires ResultInv(s.ops, s.arrived, exec, s.effects)
    requires WriterInv(s.clients, s.ops, s.arrived, s.lost) && (o in s.arrived || o in s.lost)
    ensures OpInv(ops', s.arrived, fin, s.lost)
    ensures RequestInv(ops', s.arrived, s.req, s.nextId)
    ensures ResultInv(ops', s.arrived, exec, s.effects)
    ensures WriterInv(s.clients, ops', s.arrived, s.lost)
  {
    forall i | 0 <= i < exec ensures ResultAt(ops', s.arrived[i], s.effects) {
      assert ResultAt(s.ops, s.arrived[i], s.effects);
    }
    forall t | t in s.clients ensures WriterOk(s.clients[t], ops', s.arrived, s.lost) {
      assert WriterOk(s.clients[t], s.ops, s.arrived, s.lost);
    }
  }

  lemma KeepsDequeue(cfg: Config, s: State)
    requires Invariant(cfg, s)
    requires s.prep == QCheck && s.qhead.Some?
    ensures Invariant(cfg, PrepNext(cfg, s).value)
  {
    hide LockInv, ModeInv, QueueInv, OpInv, CurInv, RequestInv, SymInv, WriterInv, ReaderInv, DrainInv, OneOwner,
         EffectInv, EffectIdInv, ResultInv, HistInv;
    var s' := PrepCheck(s);
    HeadKnown(s);
    DequeueUnlocks(s);
    Relinked(s, s.qhead.value, s'.ops, Finished(s), Executed(s));
    DequeueKeepsQueue(s);
    DequeueKeepsCur(cfg, s);
  }

  lemma DequeueKeepsCur(cfg: Config, s: State)
    requires Invariant(cfg, s) && s.prep == QCheck && s.qhead.Some?
    ensures var s' := PrepCheck(s);
            ModeInv(s') && CurInv(s'.prep, s'.ops, s'.draining, s'.symbols)
            && SymInv(s'.symbols, LinkedSym(s'), CurOp(s'.prep))
  {
    hide LockInv, QueueInv, OpInv, RequestInv, WriterInv, ReaderInv, DrainInv, OneOwner, EffectInv, EffectIdInv,
         ResultInv, HistInv,
         ModeInv, CurInv, SymInv, LinkedSym, CurOp, PrepCheck;
    HeadKnown(s);
    DequeueKeepsMode(s);
    DequeuedIsCur(s);
    DequeueKeepsSym(s);
  }

  lemma DequeueKeepsMode(s: State)
    requires ModeInv(s) && s.prep == QCheck && s.qhead.Some? && s.qhead.value in s.ops
    requires s.taken < |s.arrived| && s.arrived[s.taken] == s.qhead.value
    ensures ModeInv(PrepCheck(s))
  {
  }

  lemma DequeuedIsCur(s: State)
    requires QueueInv(s.ops, s.arrived, s.taken, s.draining, s.qhead, s.qtail, s.lost)
    requires s.prep == QCheck && s.qhead.Some? && s.qhead.value in s.ops
    requires s.taken < |s.arrived| && s.arrived[s.taken] == s.qhead.value
    ensures var s' := PrepCheck(s); CurInv(s'.prep, s'.ops, s'.draining, s'.symbols)
  {
    assert QueuedAt(s.ops, s.arrived, s.taken);
  }

  lemma DequeueKeepsSym(s: State)
    requires s.prep == QCheck && s.qhead.Some? && s.qhead.value in s.ops
    requires SymInv(s.symbols, LinkedSym(s), CurOp(s.prep))
    ensures var s' := PrepCheck(s); SymInv(s'.symbols, LinkedSym(s'), CurOp(s'.prep))
  {
  }

  lemma HeadKnown(s: State)
    requires QueueInv(s.ops, s.arrived, s.taken, s.draining, s.qhead, s.qtail, s.lost) && s.qhead.Some?
    ensures s.qhead.value in s.ops && s.taken < |s.arrived| && s.arrived[s.taken] == s.qhead.value
  {
    assert s.taken < |s.arrived| ==> QueuedAt(s.ops, s.arrived, s.taken);
  }

  lemma DequeueUnlocks(s: State)
    requires LockInv(s) && s.prep == QCheck && s.qhead.Some? && s.qhead.value in s.ops
    ensures LockInv(PrepCheck(s))
  {
    hide LockInv;
    Unlocked(s, PrepCheck(s), QueueMtx, Prep);
  }

  lemma DequeueKeepsQueue(s: State)
    requires QueueInv(s.ops, s.arrived, s.taken, s.draining, s.qhead, s.qtail, s.lost)
    requires s.prep == QCheck && s.qhead.Some? && s.qhead.value in s.ops
    ensures var s' := PrepCheck(s); QueueInv(s'.ops, s'.arrived, s'.taken, s'.draining, s'.qhead, s'.qtail, s'.lost)
  {
    var s' := PrepCheck(s);
    assert QueuedAt(s.ops, s.arrived, s.taken);
    forall i | s'.taken <= i < |s'.arrived| ensures QueuedAt(s'.ops, s'.arrived, i) {
      assert QueuedAt(s.ops, s.arrived, i);
    }
  }

  lemma KeepsFind(cfg: Config, s: State, o: OpId)
    requires Invariant(cfg, s)
    requires s.prep == Find(o)
    ensures Invariant(cfg, PrepFind(s, o))
  {
    hide LockInv, QueueInv, OpInv, WriterInv, ReaderInv, OneOwner, EffectInv, EffectIdInv, ResultInv, HistInv;
    Unlocked(s, PrepFind(s, o), SymbolsMtx, Prep);
  }

  lemma KeepsLink(cfg: Config, s: State, o: OpId, n: Name)
    requires Invariant(cfg, s)
    requires s.prep == Link(o, n)
    ensures Invariant(cfg, PrepLink(s, o, n))
  {
    hide LockInv, QueueInv, OpInv, RequestInv, WriterInv, ReaderInv, OneOwner, EffectInv, EffectIdInv, ResultInv,
         HistInv;
    Unlocked(s, PrepLink(s, o, n), SymLock(n), Prep);
  }

  lemma LastEffect(cfg: Config, es: seq<Effect>, x: Effect)
    ensures EnvAfter(cfg, es + [x]) == Apply(cfg, EnvAfter(cfg, es), x.req).0
    ensures WriteIds(es + [x]) == WriteIds(es) + if x.req.WriteReq? then [x.id] else []
    ensures Legal(cfg, es) && x.out == Apply(cfg, EnvAfter(cfg, es), x.req).1 ==> Legal(cfg, es + [x])
  {
    assert (es + [x])[..|es|] == es;
  }

  /** Only writes are listed by WriteIds, and every write is. */
  lemma {:induction false} WriteListed(es: seq<Effect>, k: int)
    requires 0 <= k < |es| && es[k].req.WriteReq?
    ensures es[k].id in WriteIds(es)
  {
    if k < |es| - 1 {
      WriteListed(es[..|es| - 1], k);
    }
  }

  /** What has taken effect stays so, and a new effect comes after everything that has returned. */
  lemma EffectAdded(hist: seq<Event>, es: seq<Effect>, req: map<OpId, Request>, x: Effect)
    requires HistInv(hist, es, req)
    ensures HistInv(hist, es + [x], req)
    ensures forall o, out :: TookEffect(es, o, out) ==> TookEffect(es + [x], o, out)
    ensures TookEffect(es + [x], x.id, x.out)
  {
    var es' := es + [x];
    assert es'[|es|] == x;
    forall o, out | TookEffect(es, o, out) ensures TookEffect(es', o, out) {
      var k :| 0 <= k < |es| && es[k].id == o && es[k].out == out;
      assert es'[k] == es[k];
    }
    forall i, j, k | 0 <= i < j < |hist| && hist[i].Ret? && hist[j].Inv? && 0 <= k < |es'| && es'[k].id == hist[j].id
      ensures Precedes(es', hist[i].id, k)
    {
      if k < |es| {
        assert es'[k] == es[k];
        assert Precedes(es, hist[i].id, k);
        var m :| 0 <= m < k && es[m].id == hist[i].id;
        assert es'[m] == es[m];
      } else {
        assert TookEffect(es, hist[i].id, hist[i].out);
        var m :| 0 <= m < |es| && es[m].id == hist[i].id && es[m].out == hist[i].out;
        assert es'[m] == es[m];
      }
    }
  }

  /** The operation about to be executed has not taken effect before. */
  lemma NotYetExecuted(cfg: Config, s: State, o: OpId)
    requires ModeInv(s) && Distinct(s.arrived) && RequestInv(s.ops, s.arrived, s.req, s.nextId)
    requires EffectInv(cfg, s.env, s.effects, s.arrived, Executed(s)) && EffectIdInv(s.effects, s.req)
    requires CurOp(s.prep) == Some(o) && BeforeExec(s.prep)
    ensures NoEffectYet(s.effects, o)
  {
    forall k | 0 <= k < |s.effects| ensures s.effects[k].id != o {
      assert s.arrived[s.taken - 1] == o && o in s.arrived;
      if s.effects[k].req.WriteReq? {
        WriteListed(s.effects, k);
      }
    }
  }

  lemma ExecResults(s: State, ops': map<OpId, NsOp>, o: OpId, a: Reply, x: Effect, exec: int)
    requires 0 <= exec < |s.arrived| && s.arrived[exec] == o && Distinct(s.arrived) && o in s.ops
    requires ResultInv(s.ops, s.arrived, exec, s.effects)
    requires ops' == s.ops[o := s.ops[o].(result := Some(a))]
    requires x.id == o && x.out == Wrote(a)
    requires forall p, out :: TookEffect(s.effects, p, out) ==> TookEffect(s.effects + [x], p, out)
    requires TookEffect(s.effects + [x], x.id, x.out)
    ensures ResultInv(ops', s.arrived, exec + 1, s.effects + [x])
  {
    forall i | 0 <= i < exec + 1 ensures ResultAt(ops', s.arrived[i], s.effects + [x]) {
      if i < exec {
        assert ResultAt(s.ops, s.arrived[i], s.effects);
      }
    }
  }

  /** A new effect leaves the readers that are still under way as they are. */
  lemma ReadersKeep(cs: map<nat, ClientPc>, req: map<OpId, Request>, es: seq<Effect>, x: Effect)
    requires ReaderInv(cs, req, es)
    requires forall t :: t in cs && IsReader(cs[t]) ==> cs[t].id != x.id
    ensures ReaderInv(cs, req, es + [x])
  {
    forall t | t in cs ensures ReaderOk(cs[t], req, es + [x]) {
      assert ReaderOk(cs[t], req, es);
    }
  }

  lemma KeepsExec(cfg: Config, s: State, o: OpId, n: Name)
    requires Invariant(cfg, s)
    requires s.prep == Exec(o, n)
    ensures Invariant(cfg, PrepExec(cfg, s, o, n))
  {
    hide LockInv, ModeInv, QueueInv, OpInv, CurInv, RequestInv, SymInv, WriterInv, ReaderInv, DrainInv, OneOwner,
         EffectInv,
         EffectIdInv, ResultInv, HistInv, EnvAfter, Legal, WriteIds, TookEffect, NoEffectYet, Distinct;
    ExecBegins(s, o, n);
    var s' := PrepExec(cfg, s, o, n);
    ExecGoesOn(s, s', o, n);
    var a := s'.ops[o].result.value;
    var x := Effect(o, WriteReq(s.ops[o].name, s.ops[o].call), Wrote(a));
    Unlocked(s, s', EnvMtx, Prep);
    assert Distinct(s.arrived) by {
      ArrivedDistinct(cfg, s);
    }
    NotYetExecuted(cfg, s, o);
    CurRequest(s, o);
    ExecKeepsEffects(cfg, s, o, a, x);
    EffectAdded(s.hist, s.effects, s.req, x);
    ExecResults(s, s'.ops, o, a, x, Executed(s));
    ReadersKeepWrite(s, x);
    ExecKeepsOps(s, o, a);
  }

  lemma ExecBegins(s: State, o: OpId, n: Name)
    requires ModeInv(s) && CurInv(s.prep, s.ops, s.draining, s.symbols) && s.prep == Exec(o, n)
    ensures o in s.ops && 0 <= Executed(s) == s.taken - 1 < |s.arrived| && s.arrived[Executed(s)] == o
  {
  }

  lemma ExecGoesOn(s: State, s': State, o: OpId, n: Name)
    requires ModeInv(s) && CurInv(s.prep, s.ops, s.draining, s.symbols) && s.prep == Exec(o, n) && o in s.ops
    requires SymInv(s.symbols, LinkedSym(s), CurOp(s.prep))
    requires s'.prep == UnlinkLock(o, n) && exists r :: s'.ops == s.ops[o := s.ops[o].(result := r)]
    requires s'.symbols == s.symbols && s'.taken == s.taken && s'.arrived == s.arrived && s'.draining == s.draining
    requires s'.running == s.running && s'.closer == s.closer
    ensures ModeInv(s') && CurInv(s'.prep, s'.ops, s'.draining, s'.symbols)
    ensures SymInv(s'.symbols, LinkedSym(s'), CurOp(s'.prep))
    ensures Executed(s') == s'.taken && Finished(s') == Finished(s)
  {
  }

  lemma CurRequest(s: State, o: OpId)
    requires RequestInv(s.ops, s.arrived, s.req, s.nextId) && o in s.ops
    ensures o in s.req && s.req[o] == WriteReq(s.ops[o].name, s.ops[o].call)
  {
  }

  lemma ArrivedDistinct(cfg: Config, s: State)
    requires QueueInv(s.ops, s.arrived, s.taken, s.draining, s.qhead, s.qtail, s.lost)
    ensures Distinct(s.arrived)
  {
  }

  lemma ReadersKeepWrite(s: State, x: Effect)
    requires ReaderInv(s.clients, s.req, s.effects)
    requires x.id in s.req && s.req[x.id].WriteReq?
    ensures ReaderInv(s.clients, s.req, s.effects + [x])
  {
    forall t | t in s.clients && IsReader(s.clients[t]) ensures s.clients[t].id != x.id {
      assert ReaderOk(s.clients[t], s.req, s.effects);
    }
    ReadersKeep(s.clients, s.req, s.effects, x);
  }

  lemma ExecKeepsEffects(cfg: Config, s: State, o: OpId, a: Reply, x: Effect)
    requires ModeInv(s) && CurOp(s.prep) == Some(o) && BeforeExec(s.prep)
    requires o in s.ops && o in s.req && s.req[o] == x.req == WriteReq(s.ops[o].name, s.ops[o].call)
    requires x.id == o && a == cfg.exec(s.env, s.ops[o].call).1 && x.out == Wrote(a)
    requires EffectInv(cfg, s.env, s.effects, s.arrived, Executed(s)) && EffectIdInv(s.effects, s.req)
    requires NoEffectYet(s.effects, o)
    ensures EffectInv(cfg, cfg.exec(s.env, s.ops[o].call).0, s.effects + [x], s.arrived, s.taken)
    ensures EffectIdInv(s.effects + [x], s.req)
  {
    LastEffect(cfg, s.effects, x);
    assert s.arrived[..s.taken] == s.arrived[..s.taken - 1] + [o];
  }

  lemma ExecKeepsOps(s: State, o: OpId, a: Reply)
    requires o in s.ops
    requires QueueInv(s.ops, s.arrived, s.taken, s.draining, s.qhead, s.qtail, s.lost)
    requires OpInv(s.ops, s.arrived, Finished(s), s.lost)
    requires RequestInv(s.ops, s.arrived, s.req, s.nextId)
    requires WriterInv(s.clients, s.ops, s.arrived, s.lost)
    ensures
      var ops' := s.ops[o := s.ops[o].(result := Some(a))];
      && QueueInv(ops', s.arrived, s.taken, s.draining, s.qhead, s.qtail, s.lost)
      && OpInv(ops', s.arrived, Finished(s), s.lost)
      && RequestInv(ops', s.arrived, s.req, s.nextId)
      && WriterInv(s.clients, ops', s.arrived, s.lost)
  {
    var ops' := s.ops[o := s.ops[o].(result := Some(a))];
    forall i | s.taken <= i < |s.arrived| ensures QueuedAt(ops', s.arrived, i) {
      assert QueuedAt(s.ops, s.arrived, i);
    }
    forall t | t in s.clients ensures WriterOk(s.clients[t], ops', s.arrived, s.lost) {
      assert WriterOk(s.clients[t], s.ops, s.arrived, s.lost);
    }
  }

  /** Clients that go from a sleep to a wakeup call hold what they held: nothing. */
  lemma WokenReaders(cs: map<nat, ClientPc>, n: Name)
    ensures WakeReaders(cs, n).Keys == cs.Keys
    ensures forall t :: t in cs ==> ClientHolds(WakeReaders(cs, n)[t]) == ClientHolds(cs[t])
    ensures forall req, es :: ReaderInv(cs, req, es) ==> ReaderInv(WakeReaders(cs, n), req, es)
    ensures forall ops, arrived, lost ::
            WriterInv(cs, ops, arrived, lost) ==> WriterInv(WakeReaders(cs, n), ops, arrived, lost)
    ensures forall req :: OneOwner(cs, req) ==> OneOwner(WakeReaders(cs, n), req)
  {
    forall req, es | ReaderInv(cs, req, es) ensures ReaderInv(WakeReaders(cs, n), req, es) {
      WokenReadersOk(cs, n, req, es);
    }
    forall ops, arrived, lost | WriterInv(cs, ops, arrived, lost)
      ensures WriterInv(WakeReaders(cs, n), ops, arrived, lost) {
      WokenWritersOk(cs, n, ops, arrived, lost);
    }
    hide ReaderInv, WriterInv;
  }

  lemma WokenReadersOk(cs: map<nat, ClientPc>, n: Name, req: map<OpId, Request>, es: seq<Effect>)
    requires ReaderInv(cs, req, es)
    ensures ReaderInv(WakeReaders(cs, n), req, es)
  {
    forall t | t in cs ensures ReaderOk(WakeReaders(cs, n)[t], req, es) {
      assert ReaderOk(cs[t], req, es);
    }
  }

  lemma WokenWritersOk(cs: map<nat, ClientPc>, n: Name, ops: map<OpId, NsOp>, arrived: seq<OpId>, lost: seq<OpId>)
    requires WriterInv(cs, ops, arrived, lost)
    ensures WriterInv(WakeReaders(cs, n), ops, arrived, lost)
  {
    forall t | t in cs ensures WriterOk(WakeReaders(cs, n)[t], ops, arrived, lost) {
      assert WriterOk(cs[t], ops, arrived, lost);
    }
  }

  /** With nothing left on `n` every reader of `n` is awake. */
  lemma DrainedReaders(cs: map<nat, ClientPc>, n: Name, symbols: map<Name, Sym>, symbols': map<Name, Sym>)
    requires DrainInv(cs, symbols) && n in symbols && n in symbols' && symbols' == symbols[n := symbols'[n]]
    ensures DrainInv(WakeReaders(cs, n), symbols')
  {
    forall t | t in cs ensures DrainOk(WakeReaders(cs, n)[t], symbols') {
      assert DrainOk(cs[t], symbols);
    }
  }

  lemma KeepsUnlink(cfg: Config, s: State, o: OpId, n: Name)
    requires Invariant(cfg, s)
    requires s.prep == Unlink(o, n)
    ensures Invariant(cfg, PrepUnlink(s, o, n))
  {
    hide LockInv, QueueInv, OpInv, RequestInv, WriterInv, ReaderInv, DrainInv, OneOwner, EffectInv, EffectIdInv,
         ResultInv, HistInv;
    hide WakeReaders;
    var s' := PrepUnlink(s, o, n);
    assert s'.symbols[n].pending == 0;
    WokenReaders(s.clients, n);
    assert forall t :: t in s'.clients ==> ClientHolds(s'.clients[t]) == ClientHolds(s.clients[t]);
    Unlocked(s, s', SymLock(n), Prep);
    DrainedReaders(s.clients, n, s.symbols, s'.symbols);
  }

  lemma WokenWriter(cs: map<nat, ClientPc>, o: OpId)
    ensures WakeWriter(cs, o).Keys == cs.Keys
    ensures forall t :: t in cs ==> ClientHolds(WakeWriter(cs, o)[t]) == ClientHolds(cs[t])
    ensures forall req, es :: ReaderInv(cs, req, es) ==> ReaderInv(WakeWriter(cs, o), req, es)
    ensures forall symbols :: DrainInv(cs, symbols) ==> DrainInv(WakeWriter(cs, o), symbols)
    ensures forall req :: OneOwner(cs, req) ==> OneOwner(WakeWriter(cs, o), req)
  {
    forall req, es | ReaderInv(cs, req, es) ensures ReaderInv(WakeWriter(cs, o), req, es) {
      forall t | t in cs ensures ReaderOk(WakeWriter(cs, o)[t], req, es) {
        assert ReaderOk(cs[t], req, es);
      }
    }
    forall symbols | DrainInv(cs, symbols) ensures DrainInv(WakeWriter(cs, o), symbols) {
      forall t | t in cs ensures DrainOk(WakeWriter(cs, o)[t], symbols) {
        assert DrainOk(cs[t], symbols);
      }
    }
  }

  /** Completing the current operation, which its writer may be asleep on. */
  lemma CompleteKeepsOps(s: State, o: OpId)
    requires ModeInv(s) && CurOp(s.prep) == Some(o) && !BeforeExec(s.prep) && o in s.ops
    requires QueueInv(s.ops, s.arrived, s.taken, s.draining, s.qhead, s.qtail, s.lost)
    requires OpInv(s.ops, s.arrived, s.taken - 1, s.lost)
    requires RequestInv(s.ops, s.arrived, s.req, s.nextId)
    requires WriterInv(s.clients, s.ops, s.arrived, s.lost)
    requires ResultInv(s.ops, s.arrived, s.taken, s.effects)
    ensures
      var ops' := s.ops[o := s.ops[o].(completed := true)];
      && QueueInv(ops', s.arrived, s.taken, s.draining, s.qhead, s.qtail, s.lost)
      && OpInv(ops', s.arrived, s.taken, s.lost)
      && RequestInv(ops', s.arrived, s.req, s.nextId)
      && WriterInv(WakeWriter(s.clients, o), ops', s.arrived, s.lost)
      && ResultInv(ops', s.arrived, s.taken, s.effects)
  {
    var ops' := s.ops[o := s.ops[o].(completed := true)];
    assert s.arrived[s.taken - 1] == o;
    forall i | s.taken <= i < |s.arrived| ensures QueuedAt(ops', s.arrived, i) {
      assert QueuedAt(s.ops, s.arrived, i);
    }
    forall t | t in s.clients ensures WriterOk(WakeWriter(s.clients, o)[t], ops', s.arrived, s.lost) {
      assert WriterOk(s.clients[t], s.ops, s.arrived, s.lost);
    }
    forall i | 0 <= i < s.taken ensures ResultAt(ops', s.arrived[i], s.effects) {
      assert ResultAt(s.ops, s.arrived[i], s.effects);
    }
    forall p | p in ops' && ops'[p].completed ensures Among(s.arrived, s.taken, p) {
      if p != o {
        assert Among(s.arrived, s.taken - 1, p);
      }
    }
  }

  lemma DoneUnlocks(s: State, o: OpId)
    requires LockInv(s) && o in s.ops && s.prep == Done(o)
    ensures LockInv(PrepDone(s, o))
  {
    hide LockInv, WakeWriter;
    WokenWriter(s.clients, o);
    Unlocked(s, PrepDone(s, o), DoneMtx(o), Prep);
  }

  lemma KeepsDone(cfg: Config, s: State, o: OpId)
    requires Invariant(cfg, s)
    requires s.prep == Done(o)
    ensures Invariant(cfg, PrepDone(s, o))
  {
    hide LockInv, QueueInv, OpInv, RequestInv, WriterInv, ReaderInv, DrainInv, OneOwner, EffectInv, EffectIdInv,
         ResultInv, HistInv;
    hide WakeWriter;
    var s' := PrepDone(s, o);
    CompleteKeepsOps(s, o);
    WokenWriter(s.clients, o);
    DoneUnlocks(s, o);
  }

  /** The prepare thread never finds its operation or its symbol gone. */
  lemma CurKnown(cfg: Config, s: State)
    requires Invariant(cfg, s)
    ensures CurOp(s.prep).Some? ==> CurOp(s.prep).value in s.ops
    ensures CurSym(s.prep).Some? ==> CurSym(s.prep).value in s.symbols
    ensures s.qhead.Some? ==> s.qhead.value in s.ops
  {
    hide LockInv, OpInv, RequestInv, SymInv, WriterInv, ReaderInv, DrainInv, OneOwner, EffectInv, EffectIdInv,
         ResultInv, HistInv;
    if s.qhead.Some? {
      assert QueuedAt(s.ops, s.arrived, s.taken);
    }
  }

  /** Where the prepare thread waits for a mutex: which one, and where it goes on. */
  predicate PrepWants(pc: PrepPc) {
    pc == QLock || pc == QWake || pc.FindLock? || pc.LinkLock? || pc.ExecLock? || pc.UnlinkLock? || pc.DoneLock?
  }

  function PrepGoal(pc: PrepPc): (Mutex, PrepPc)
    requires PrepWants(pc)
  {
    match pc
    case QLock => (QueueMtx, QCheck)
    case QWake => (QueueMtx, QCheck)
    case FindLock(o) => (SymbolsMtx, Find(o))
    case LinkLock(o, n) => (SymLock(n), Link(o, n))
    case ExecLock(o, n) => (EnvMtx, Exec(o, n))
    case UnlinkLock(o, n) => (SymLock(n), Unlink(o, n))
    case DoneLock(o) => (DoneMtx(o), Done(o))
  }

  lemma KeepsPrepLocking(cfg: Config, s: State)
    requires Invariant(cfg, s) && PrepWants(s.prep) && PrepNext(cfg, s).Some?
    ensures Invariant(cfg, PrepNext(cfg, s).value)
  {
    hide Invariant, LockInv, ModeInv, QueueInv, OpInv, CurInv, RequestInv, SymInv, WriterInv, ReaderInv, DrainInv,
         OneOwner, EffectInv, EffectIdInv, ResultInv, HistInv;
    var (m, pc) := PrepGoal(s.prep);
    KeepsPrepLock(cfg, s, m, pc);
  }

  lemma KeepsPhases1And2(cfg: Config, s: State)
    requires Invariant(cfg, s) && PrepNext(cfg, s).Some?
    requires s.prep == LoopTop || s.prep == QCheck || s.prep.Find? || s.prep.Link?
    ensures Invariant(cfg, PrepNext(cfg, s).value)
  {
    hide Invariant, LockInv, ModeInv, QueueInv, OpInv, CurInv, RequestInv, SymInv, WriterInv, ReaderInv, DrainInv,
         OneOwner, EffectInv, EffectIdInv, ResultInv, HistInv;
    match s.prep
    case LoopTop => KeepsLoopTop(cfg, s);
    case QCheck =>
      if s.qhead.Some? {
        KeepsDequeue(cfg, s);
      } else {
        KeepsCheckEmpty(cfg, s);
      }
    case Find(o) => KeepsFind(cfg, s, o);
    case Link(o, n) => KeepsLink(cfg, s, o, n);
  }

  lemma KeepsPhases3To5(cfg: Config, s: State)
    requires Invariant(cfg, s) && PrepNext(cfg, s).Some?
    requires s.prep.Exec? || s.prep.Unlink? || s.prep.Done?
    ensures Invariant(cfg, PrepNext(cfg, s).value)
  {
    hide Invariant, LockInv, ModeInv, QueueInv, OpInv, CurInv, RequestInv, SymInv, WriterInv, ReaderInv, DrainInv,
         OneOwner, EffectInv, EffectIdInv, ResultInv, HistInv;
    match s.prep
    case Exec(o, n) => KeepsExec(cfg, s, o, n);
    case Unlink(o, n) => KeepsUnlink(cfg, s, o, n);
    case Done(o) => KeepsDone(cfg, s, o);
  }

  lemma PrepKeeps(cfg: Config, s: State)
    requires Invariant(cfg, s) && PrepNext(cfg, s).Some?
    ensures Invariant(cfg, PrepNext(cfg, s).value)
  {
    hide Invariant, LockInv, ModeInv, QueueInv, OpInv, CurInv, RequestInv, SymInv, WriterInv, ReaderInv, DrainInv,
         OneOwner, EffectInv, EffectIdInv, ResultInv, HistInv;
    if PrepWants(s.prep) {
      KeepsPrepLocking(cfg, s);
    } else if s.prep == LoopTop || s.prep == QCheck || s.prep.Find? || s.prep.Link? {
      KeepsPhases1And2(cfg, s);
    } else {
      KeepsPhases3To5(cfg, s);
    }
  }
}
