/** What every reachable state of the buffer satisfies. */
module NsBufferInvariant {
  import opened Common
  import opened EnvModel
  import opened NsBuffer

  /** The operation the prepare thread has taken off the queue and not completed. */
  function CurOp(pc: PrepPc): Option<OpId> {
    match pc
    case FindLock(o) => Some(o)
    case Find(o) => Some(o)
    case LinkLock(o, _) => Some(o)
    case Link(o, _) => Some(o)
    case ExecLock(o, _) => Some(o)
    case Exec(o, _) => Some(o)
    case UnlinkLock(o, _) => Some(o)
    case Unlink(o, _) => Some(o)
    case DoneLock(o) => Some(o)
    case Done(o) => Some(o)
    case _ => None
  }

  predicate BeforeExec(pc: PrepPc) {
    pc.FindLock? || pc.Find? || pc.LinkLock? || pc.Link? || pc.ExecLock? || pc.Exec?
  }

  /** The symbol the prepare thread has looked up. */
  function CurSym(pc: PrepPc): Option<Name> {
    match pc
    case LinkLock(_, n) => Some(n)
    case Link(_, n) => Some(n)
    case ExecLock(_, n) => Some(n)
    case Exec(_, n) => Some(n)
    case UnlinkLock(_, n) => Some(n)
    case Unlink(_, n) => Some(n)
    case _ => None
  }

  /** The symbol whose queue holds the current operation: between phases 2 and 4 of the main loop. */
  function LinkedSym(s: State): Option<Name> {
    if s.draining then None else
      match s.prep
      case ExecLock(_, n) => Some(n)
      case Exec(_, n) => Some(n)
      case UnlinkLock(_, n) => Some(n)
      case Unlink(_, n) => Some(n)
      case _ => None
  }

  /** How many arrived operations have been executed, and how many completed. */
  function Executed(s: State): int {
    if BeforeExec(s.prep) then s.taken - 1 else s.taken
  }

  function Finished(s: State): int {
    if CurOp(s.prep).Some? then s.taken - 1 else s.taken
  }

  /** The operation a client is working on. */
  function ClientOp(pc: ClientPc): Option<OpId> {
    if pc == Idle then None else Some(pc.id)
  }

  // ----- mutual exclusion -----

  /** A mutex is owned exactly by the thread that is inside its critical section. */
  ghost predicate LockInv(s: State) {
    && (forall m :: m in s.owner ==> Holds(s, s.owner[m]) == Some(m))
    && (forall t :: Holds(s, t).Some? ==> Holds(s, t).value in s.owner && s.owner[Holds(s, t).value] == t)
  }

  // ----- modes -----

  /** Which loop the prepare thread is in, and how far shutdown has come. */
  ghost predicate ModeInv(s: State) {
    && s.taken <= |s.arrived|
    && (s.prep == LoopTop || s.prep == QAsleep || s.prep == QWake || s.prep.LinkLock? || s.prep.Link? ==> !s.draining)
    && (s.draining ==> !s.running)
    && (!s.running <==> s.closer != Open)
    && (s.prep == Exited ==> s.draining)
    && (s.closer == Closed ==> s.prep == Exited)
    // no wakeup of the prepare thread is lost
    && (s.prep == QAsleep ==> s.taken == |s.arrived|)
    && (s.prep == QAsleep && !s.running ==> s.closer == CloseLock || s.closer == CloseSignal)
    && (CurOp(s.prep).Some? ==> s.taken > 0 && s.arrived[s.taken - 1] == CurOp(s.prep).value)
  }

  // ----- the central queue -----

  /** The i-th arrival is still queued and its link leads to its successor. */
  predicate QueuedAt(ops: map<OpId, NsOp>, arrived: seq<OpId>, i: int)
    requires 0 <= i < |arrived|
  {
    && arrived[i] in ops
    && !ops[arrived[i]].completed
    && ops[arrived[i]].next == (if i + 1 < |arrived| then Some(arrived[i + 1]) else None)
  }

  /**
   * Head, links and tail spell out the arrivals that have not been taken.  While the
   * drain loop runs the tail may be left over from a queue that has become empty.
   */
  ghost predicate QueueInv(ops: map<OpId, NsOp>, arrived: seq<OpId>, taken: nat, draining: bool,
                           qhead: Option<OpId>, qtail: Option<OpId>, lost: seq<OpId>)
  {
    && taken <= |arrived|
    && Distinct(arrived)
    && qhead == (if taken == |arrived| then None else Some(arrived[taken]))
    && (!draining || taken < |arrived| ==>
          qtail == (if taken == |arrived| then None else Some(arrived[|arrived| - 1])))
    && (forall i | taken <= i < |arrived| :: QueuedAt(ops, arrived, i))
    && (qtail.Some? ==> qtail.value in arrived || qtail.value in lost)
    && (lost != [] ==> draining && qhead.None? && qtail.Some?)
  }

  // ----- operations -----

  /** `o` is one of the first n arrivals. */
  ghost predicate Among(arrived: seq<OpId>, n: int, o: OpId) {
    exists i :: 0 <= i < n && i < |arrived| && arrived[i] == o
  }

  /** The operations that still exist; the first `finished` arrivals are the completed ones. */
  ghost predicate OpInv(ops: map<OpId, NsOp>, arrived: seq<OpId>, finished: int, lost: seq<OpId>) {
    && finished <= |arrived|
    && (forall o :: o in ops && ops[o].completed ==> Among(arrived, finished, o))
    && (forall i | 0 <= i < finished :: arrived[i] in ops ==> ops[arrived[i]].completed)
    && (forall o :: o in lost ==> o in ops && !ops[o].completed && o !in arrived)
  }

  /** The operation in the hands of the prepare thread. */
  ghost predicate CurInv(prep: PrepPc, ops: map<OpId, NsOp>, draining: bool, symbols: map<Name, Sym>) {
    && (CurOp(prep).Some? ==>
          && CurOp(prep).value in ops
          && !ops[CurOp(prep).value].completed
          && (!draining ==> ops[CurOp(prep).value].next.None?))
    && (CurSym(prep).Some? ==> CurSym(prep).value in symbols && CurSym(prep).value == ops[CurOp(prep).value].name)
  }

  /** Operation numbers and the requests they stand for. */
  ghost predicate RequestInv(ops: map<OpId, NsOp>, arrived: seq<OpId>, req: map<OpId, Request>, nextId: OpId) {
    && (forall o :: o in req ==> o < nextId)
    && (forall o :: o in ops ==> o in req && req[o] == WriteReq(ops[o].name, ops[o].call))
    && (forall o :: o in arrived ==> o in req && req[o].WriteReq?)
  }

  // ----- symbol queues -----

  /** A symbol queue holds the current operation between its link and its removal, and nothing otherwise. */
  ghost predicate SymInv(symbols: map<Name, Sym>, linked: Option<Name>, cur: Option<OpId>) {
    forall n :: n in symbols ==>
      symbols[n] == if linked == Some(n) then Sym(cur, cur, 1) else Sym(None, None, 0)
  }

  // ----- clients -----

  ghost predicate NoEffectYet(es: seq<Effect>, o: OpId) {
    forall k | 0 <= k < |es| :: es[k].id != o
  }

  /** A writer's operation exists until the writer frees it; a sleeping writer's is not completed. */
  ghost predicate WriterOk(pc: ClientPc, ops: map<OpId, NsOp>, arrived: seq<OpId>, lost: seq<OpId>) {
    match pc
    case EnqLock(o) => o in ops && !ops[o].completed && ops[o].next.None? && o !in arrived && o !in lost
    case Enq(o) => o in ops && !ops[o].completed && ops[o].next.None? && o !in arrived && o !in lost
    case WaitLock(o) => o in ops && (o in arrived || o in lost)
    case WaitCheck(o) => o in ops && (o in arrived || o in lost)
    case WaitAsleep(o) => o in ops && (o in arrived || o in lost) && !ops[o].completed
    case WaitWake(o) => o in ops && (o in arrived || o in lost)
    case Collect(o) => o in ops && ops[o].completed
    case _ => true
  }

  predicate IsReader(pc: ClientPc) {
    pc.RegLock? || pc.Reg? || pc.DrainLock? || pc.Drain? || pc.DrainAsleep? || pc.DrainWake? || pc.ReadLock? || pc.Read?
  }

  ghost predicate ReaderOk(pc: ClientPc, req: map<OpId, Request>, es: seq<Effect>) {
    IsReader(pc) ==> pc.id in req && req[pc.id].ReadReq? && req[pc.id].name == pc.name && NoEffectYet(es, pc.id)
  }

  /** A reader asleep on a symbol has something to wait for. */
  ghost predicate DrainOk(pc: ClientPc, symbols: map<Name, Sym>) {
    && (pc.DrainLock? || pc.Drain? || pc.DrainAsleep? || pc.DrainWake? ==> pc.name in symbols)
    && (pc.DrainAsleep? ==> symbols[pc.name].pending > 0)
  }

  ghost predicate WriterInv(cs: map<nat, ClientPc>, ops: map<OpId, NsOp>, arrived: seq<OpId>, lost: seq<OpId>) {
    forall t :: t in cs ==> WriterOk(cs[t], ops, arrived, lost)
  }

  ghost predicate ReaderInv(cs: map<nat, ClientPc>, req: map<OpId, Request>, es: seq<Effect>) {
    forall t :: t in cs ==> ReaderOk(cs[t], req, es)
  }

  ghost predicate DrainInv(cs: map<nat, ClientPc>, symbols: map<Name, Sym>) {
    forall t :: t in cs ==> DrainOk(cs[t], symbols)
  }

  /** No two clients work on the same operation. */
  ghost predicate OneOwner(cs: map<nat, ClientPc>, req: map<OpId, Request>) {
    && (forall t :: t in cs && cs[t] != Idle ==> ClientOp(cs[t]).value in req)
    && (forall t, u :: t in cs && u in cs && t != u && cs[t] != Idle ==> ClientOp(cs[t]) != ClientOp(cs[u]))
  }

  // ----- effects and history -----

  /** The environment after a sequence of operations applied one at a time. */
  ghost function EnvAfter(cfg: Config, es: seq<Effect>): Store {
    if es == [] then cfg.init
    else Apply(cfg, EnvAfter(cfg, es[..|es| - 1]), es[|es| - 1].req).0
  }

  /** Every operation in the sequence returns what the sequential object returns at its place. */
  ghost predicate Legal(cfg: Config, es: seq<Effect>) {
    es == [] || (
      && Legal(cfg, es[..|es| - 1])
      && es[|es| - 1].out == Apply(cfg, EnvAfter(cfg, es[..|es| - 1]), es[|es| - 1].req).1)
  }

  function WriteIds(es: seq<Effect>): seq<OpId> {
    if es == [] then []
    else WriteIds(es[..|es| - 1]) + if es[|es| - 1].req.WriteReq? then [es[|es| - 1].id] else []
  }

  ghost predicate TookEffect(es: seq<Effect>, o: OpId, out: Outcome) {
    exists k :: 0 <= k < |es| && es[k].id == o && es[k].out == out
  }

  /** The effects are a legal sequential run whose writes are the executed arrivals in order. */
  ghost predicate EffectInv(cfg: Config, env: Store, es: seq<Effect>, arrived: seq<OpId>, executed: int) {
    && env == EnvAfter(cfg, es)
    && Legal(cfg, es)
    && 0 <= executed <= |arrived|
    && WriteIds(es) == arrived[..executed]
  }

  ghost predicate EffectIdInv(es: seq<Effect>, req: map<OpId, Request>) {
    && (forall j, k | 0 <= j < k < |es| :: es[j].id != es[k].id)
    && (forall k | 0 <= k < |es| :: es[k].id in req && req[es[k].id] == es[k].req)
  }

  /** The result stored in an executed operation is the one it had when it took effect. */
  ghost predicate ResultAt(ops: map<OpId, NsOp>, o: OpId, es: seq<Effect>) {
    o in ops ==> ops[o].result.Some? && TookEffect(es, o, Wrote(ops[o].result.value))
  }

  ghost predicate ResultInv(ops: map<OpId, NsOp>, arrived: seq<OpId>, executed: int, es: seq<Effect>) {
    && executed <= |arrived|
    && forall i | 0 <= i < executed :: ResultAt(ops, arrived[i], es)
  }

  /** `a` took effect before the k-th effect. */
  ghost predicate Precedes(es: seq<Effect>, a: OpId, k: int)
    requires k <= |es|
  {
    exists m :: 0 <= m < k && es[m].id == a
  }

  /** An operation that returned before another began also took effect before it. */
  ghost predicate RealTimeOrder(hist: seq<Event>, es: seq<Effect>) {
    forall i, j, k | 0 <= i < j < |hist| && hist[i].Ret? && hist[j].Inv? && 0 <= k < |es| && es[k].id == hist[j].id ::
      Precedes(es, hist[i].id, k)
  }

  ghost predicate HistInv(hist: seq<Event>, es: seq<Effect>, req: map<OpId, Request>) {
    && (forall j | 0 <= j < |hist| && hist[j].Ret? :: TookEffect(es, hist[j].id, hist[j].out))
    && (forall j | 0 <= j < |hist| && hist[j].Inv? :: hist[j].id in req && req[hist[j].id] == hist[j].req)
    && (forall o :: o in req ==> Inv(o, req[o]) in hist)
    && RealTimeOrder(hist, es)
  }

  ghost predicate Invariant(cfg: Config, s: State) {
    && LockInv(s)
    && ModeInv(s)
    && QueueInv(s.ops, s.arrived, s.taken, s.draining, s.qhead, s.qtail, s.lost)
    && OpInv(s.ops, s.arrived, Finished(s), s.lost)
    && CurInv(s.prep, s.ops, s.draining, s.symbols)
    && RequestInv(s.ops, s.arrived, s.req, s.nextId)
    && SymInv(s.symbols, LinkedSym(s), CurOp(s.prep))
    && WriterInv(s.clients, s.ops, s.arrived, s.lost)
    && ReaderInv(s.clients, s.req, s.effects)
    && DrainInv(s.clients, s.symbols)
    && OneOwner(s.clients, s.req)
    && EffectInv(cfg, s.env, s.effects, s.arrived, Executed(s))
    && EffectIdInv(s.effects, s.req)
    && ResultInv(s.ops, s.arrived, Executed(s), s.effects)
    && HistInv(s.hist, s.effects, s.req)
  }

  // ----- mutexes come and go -----

  lemma Locked(s: State, s': State, m: Mutex, t: Tid)
    requires LockInv(s) && m !in s.owner && s'.owner == s.owner[m := t]
    requires Holds(s, t).None? && Holds(s', t) == Some(m)
    requires forall u :: u != t ==> Holds(s', u) == Holds(s, u)
    ensures LockInv(s')
  {
    forall u | Holds(s', u).Some?
      ensures Holds(s', u).value in s'.owner && s'.owner[Holds(s', u).value] == u
    {
      if u != t {
        assert Holds(s, u) == Holds(s', u);
      }
    }
  }

  lemma Unlocked(s: State, s': State, m: Mutex, t: Tid)
    requires LockInv(s) && s'.owner == s.owner - {m}
    requires Holds(s, t) == Some(m) && Holds(s', t).None?
    requires forall u :: u != t ==> Holds(s', u) == Holds(s, u)
    ensures LockInv(s')
  {
    forall u | Holds(s', u).Some?
      ensures Holds(s', u).value in s'.owner && s'.owner[Holds(s', u).value] == u
    {
      assert Holds(s, u) == Holds(s', u);
    }
    forall k | k in s'.owner
      ensures Holds(s', s'.owner[k]) == Some(k)
    {
      assert Holds(s, s.owner[k]) == Some(k);
    }
  }

  lemma SameLocks(s: State, s': State)
    requires LockInv(s) && s'.owner == s.owner
    requires forall u :: Holds(s', u) == Holds(s, u)
    ensures LockInv(s')
  {
    forall u | Holds(s', u).Some?
      ensures Holds(s', u).value in s'.owner && s'.owner[Holds(s', u).value] == u
    {
      assert Holds(s, u) == Holds(s', u);
    }
  }
}
