/**
 * The namespace write buffer of src/ns_buffer.c as a transition system.
 *
 * One prepare thread, one closing thread (the caller of ns_buffer_shutdown) and any
 * number of client threads share the buffer.  Every thread has a program counter.
 * A critical section is two steps: taking the mutex, which is possible only while
 * nobody owns it, and running the section up to and including the unlock (or up to
 * the release inside cnd_wait).  Condition variables follow section 7.26 of
 * ISO/IEC 9899:2018: a waiter gives the mutex up while it sleeps, a signal moves one
 * waiter and a broadcast every waiter to the state where it asks for the mutex again,
 * and a waiter may wake up without any signal.
 */
module NsBuffer {
  import opened Common
  import opened EnvModel

  type OpId = nat

  /** What the environment does: one write call, and one read of a name. */
  datatype Config = Config(
    init: Store,
    exec: (Store, Call) -> (Store, Reply),
    look: (Store, EnvId, Name) -> Answer)

  datatype Mutex = QueueMtx | SymbolsMtx | EnvMtx | SymLock(name: Name) | DoneMtx(op: OpId)

  datatype Tid = Prep | Closer | Client(n: nat)

  /** NsOp: `next` is the one link used by the central queue and by the symbol queues. */
  datatype NsOp = NsOp(name: Name, call: Call, next: Option<OpId>, completed: bool, result: Option<Reply>)

  /** SymbolThread */
  datatype Sym = Sym(head: Option<OpId>, tail: Option<OpId>, pending: nat)

  datatype PrepPc =
    | LoopTop                                  // while (buf->running)
    | QLock | QCheck | QAsleep | QWake         // phase 1, and the head test of the drain loop
    | FindLock(op: OpId) | Find(op: OpId)      // phase 2, registry
    | LinkLock(op: OpId, st: Name) | Link(op: OpId, st: Name)         // phase 2, symbol queue
    | ExecLock(op: OpId, st: Name) | Exec(op: OpId, st: Name)         // phase 3
    | UnlinkLock(op: OpId, st: Name) | Unlink(op: OpId, st: Name)     // phase 4
    | DoneLock(op: OpId) | Done(op: OpId)      // phase 5
    | Exited

  datatype ClosePc = Open | CloseLock | CloseSignal | Joining | Closed

  datatype ClientPc =
    | Idle
    | EnqLock(id: OpId) | Enq(id: OpId)
    | WaitLock(id: OpId) | WaitCheck(id: OpId) | WaitAsleep(id: OpId) | WaitWake(id: OpId)
    | Collect(id: OpId)
    | RegLock(id: OpId, name: Name) | Reg(id: OpId, name: Name)
    | DrainLock(id: OpId, name: Name) | Drain(id: OpId, name: Name)
    | DrainAsleep(id: OpId, name: Name) | DrainWake(id: OpId, name: Name)
    | ReadLock(id: OpId, name: Name) | Read(id: OpId, name: Name)

  datatype Request = WriteReq(name: Name, call: Call) | ReadReq(name: Name, env: EnvId)
  datatype Outcome = Wrote(reply: Reply) | Got(answer: Answer)

  /** One operation at the point where it took effect. */
  datatype Effect = Effect(id: OpId, req: Request, out: Outcome)

  /** What a client can observe: when an operation begins and what it returns. */
  datatype Event = Inv(id: OpId, req: Request) | Ret(id: OpId, out: Outcome)

  /**
   * The fields up to `env` are the program's.  The rest is bookkeeping that no step
   * tests: `arrived` lists the operations in the order in which they were put behind
   * the central queue, `taken` says how many of them left it again, `lost` lists those
   * that were linked behind a tail that no longer belongs to the queue, `effects` is
   * the order in which operations took effect and `hist` the clients' view.  `wild` says
   * that an operation was linked behind a tail that its writer had freed: C leaves open
   * what that write does, and the model goes on as if it had hit nothing.
   */
  datatype State = State(
    running: bool,
    draining: bool,
    qhead: Option<OpId>,
    qtail: Option<OpId>,
    ops: map<OpId, NsOp>,
    symbols: map<Name, Sym>,
    owner: map<Mutex, Tid>,
    prep: PrepPc,
    closer: ClosePc,
    clients: map<nat, ClientPc>,
    env: Store,
    nextId: OpId,
    req: map<OpId, Request>,
    arrived: seq<OpId>,
    taken: nat,
    lost: seq<OpId>,
    effects: seq<Effect>,
    hist: seq<Event>,
    wild: bool)

  function Start(cfg: Config): State {
    State(true, false, None, None, map[], map[], map[], LoopTop, Open, map[], cfg.init,
          0, map[], [], 0, [], [], [], false)
  }

  /** The sequential object: one whole operation applied at once. */
  function Apply(cfg: Config, e: Store, r: Request): (Store, Outcome) {
    match r
    case WriteReq(_, c) => var (e', a) := cfg.exec(e, c); (e', Wrote(a))
    case ReadReq(n, f) => (e, Got(cfg.look(e, f, n)))
  }

  // ----- mutexes -----

  function PrepHolds(pc: PrepPc): Option<Mutex> {
    match pc
    case QCheck => Some(QueueMtx)
    case Find(_) => Some(SymbolsMtx)
    case Link(_, st) => Some(SymLock(st))
    case Exec(_, _) => Some(EnvMtx)
    case Unlink(_, st) => Some(SymLock(st))
    case Done(o) => Some(DoneMtx(o))
    case _ => None
  }

  function ClientHolds(pc: ClientPc): Option<Mutex> {
    match pc
    case Enq(_) => Some(QueueMtx)
    case WaitCheck(o) => Some(DoneMtx(o))
    case Reg(_, _) => Some(SymbolsMtx)
    case Drain(_, n) => Some(SymLock(n))
    case Read(_, _) => Some(EnvMtx)
    case _ => None
  }

  function Holds(s: State, t: Tid): Option<Mutex> {
    match t
    case Prep => PrepHolds(s.prep)
    case Closer => if s.closer == CloseSignal then Some(QueueMtx) else None
    case Client(n) => if n in s.clients then ClientHolds(s.clients[n]) else None
  }

  function Take(s: State, m: Mutex, t: Tid): State {
    s.(owner := s.owner[m := t])
  }

  function Release(s: State, m: Mutex): State {
    s.(owner := s.owner - {m})
  }

  // ----- the prepare thread -----

  /** Waits for `m`, then continues at `pc`. */
  function PrepLock(s: State, m: Mutex, pc: PrepPc): Option<State> {
    if m in s.owner then None else Some(Take(s, m, Prep).(prep := pc))
  }

  /** Takes the head off the central queue; the drain loop leaves the tail as it is. */
  function Dequeue(s: State, o: OpId): State
    requires o in s.ops
  {
    var h := s.ops[o].next;
    Release(s, QueueMtx).(
      qhead := h,
      qtail := if !s.draining && h.None? then None else s.qtail,
      ops := s.ops[o := s.ops[o].(next := None)],
      taken := s.taken + 1,
      prep := FindLock(o))
  }

  /** QCheck: the tests made on the head while the queue mutex is held. */
  function PrepCheck(s: State): State {
    if s.qhead.Some? && s.qhead.value in s.ops then Dequeue(s, s.qhead.value)
    else if s.draining then Release(s, QueueMtx).(prep := Exited)
    else if s.running then Release(s, QueueMtx).(prep := QAsleep)
    else Release(s, QueueMtx).(draining := true, prep := QLock)
  }

  function PrepFind(s: State, o: OpId): State
    requires o in s.ops
  {
    var n := s.ops[o].name;
    var s1 := Release(s, SymbolsMtx);
    s1.(symbols := if n in s.symbols then s.symbols else s.symbols[n := Sym(None, None, 0)],
        prep := if s.draining then ExecLock(o, n) else LinkLock(o, n))
  }

  /** The link of the tail leads to the operation. */
  function Linked(ops: map<OpId, NsOp>, tail: Option<OpId>, o: OpId): map<OpId, NsOp> {
    if tail.Some? && tail.value in ops then ops[tail.value := ops[tail.value].(next := Some(o))] else ops
  }

  function PrepLink(s: State, o: OpId, n: Name): State
    requires n in s.symbols
  {
    var st := s.symbols[n];
    Release(s, SymLock(n)).(
      ops := Linked(s.ops, st.tail, o),
      symbols := s.symbols[n := Sym(if st.tail.Some? then st.head else Some(o), Some(o), st.pending + 1)],
      prep := ExecLock(o, n))
  }

  function PrepExec(cfg: Config, s: State, o: OpId, n: Name): State
    requires o in s.ops
  {
    var (e, a) := cfg.exec(s.env, s.ops[o].call);
    Release(s, EnvMtx).(
      env := e,
      ops := s.ops[o := s.ops[o].(result := Some(a))],
      effects := s.effects + [Effect(o, WriteReq(s.ops[o].name, s.ops[o].call), Wrote(a))],
      prep := UnlinkLock(o, n))
  }

  /** cnd_broadcast(&st->drain_cnd) */
  function WakeReaders(cs: map<nat, ClientPc>, n: Name): map<nat, ClientPc> {
    map t | t in cs :: if cs[t].DrainAsleep? && cs[t].name == n then DrainWake(cs[t].id, n) else cs[t]
  }

  function PrepUnlink(s: State, o: OpId, n: Name): State
    requires o in s.ops && n in s.symbols
  {
    var st := s.symbols[n];
    var left := if st.pending > 0 then st.pending - 1 else 0;
    var st' := if s.draining then st.(pending := left)
               else Sym(s.ops[o].next, if s.ops[o].next.None? then None else st.tail, left);
    Release(s, SymLock(n)).(
      symbols := s.symbols[n := st'],
      clients := if left == 0 then WakeReaders(s.clients, n) else s.clients,
      prep := DoneLock(o))
  }

  /** cnd_signal(&op->completion_cnd): only the writer of `o` ever waits there. */
  function WakeWriter(cs: map<nat, ClientPc>, o: OpId): map<nat, ClientPc> {
    map t | t in cs :: if cs[t] == WaitAsleep(o) then WaitWake(o) else cs[t]
  }

  function PrepDone(s: State, o: OpId): State
    requires o in s.ops
  {
    Release(s, DoneMtx(o)).(
      ops := s.ops[o := s.ops[o].(completed := true)],
      clients := WakeWriter(s.clients, o),
      prep := if s.draining then QLock else LoopTop)
  }

  /** The next step of the prepare thread; None while it is blocked, asleep or gone. */
  function PrepNext(cfg: Config, s: State): Option<State> {
    match s.prep
    case LoopTop => Some(if s.running then s.(prep := QLock) else s.(draining := true, prep := QLock))
    case QLock => PrepLock(s, QueueMtx, QCheck)
    case QCheck => Some(PrepCheck(s))
    case QAsleep => None
    case QWake => PrepLock(s, QueueMtx, QCheck)
    case FindLock(o) => PrepLock(s, SymbolsMtx, Find(o))
    case Find(o) => if o in s.ops then Some(PrepFind(s, o)) else None
    case LinkLock(o, n) => PrepLock(s, SymLock(n), Link(o, n))
    case Link(o, n) => if n in s.symbols then Some(PrepLink(s, o, n)) else None
    case ExecLock(o, n) => PrepLock(s, EnvMtx, Exec(o, n))
    case Exec(o, n) => if o in s.ops then Some(PrepExec(cfg, s, o, n)) else None
    case UnlinkLock(o, n) => PrepLock(s, SymLock(n), Unlink(o, n))
    case Unlink(o, n) => if o in s.ops && n in s.symbols then Some(PrepUnlink(s, o, n)) else None
    case DoneLock(o) => PrepLock(s, DoneMtx(o), Done(o))
    case Done(o) => if o in s.ops then Some(PrepDone(s, o)) else None
    case Exited => None
  }

  // ----- the closing thread -----

  /** cnd_signal(&buf->queue_cnd): only the prepare thread ever waits there. */
  function Signalled(pc: PrepPc): PrepPc {
    if pc == QAsleep then QWake else pc
  }

  function CloserNext(s: State): Option<State> {
    match s.closer
    case Open => Some(s.(running := false, closer := CloseLock))
    case CloseLock =>
      if QueueMtx in s.owner then None else Some(Take(s, QueueMtx, Closer).(closer := CloseSignal))
    case CloseSignal => Some(Release(s, QueueMtx).(prep := Signalled(s.prep), closer := Joining))
    case Joining => if s.prep == Exited then Some(s.(closer := Closed)) else None
    case Closed => None
  }

  // ----- clients -----

  function Move(s: State, t: nat, pc: ClientPc): State {
    s.(clients := s.clients[t := pc])
  }

  function ClientLock(s: State, t: nat, m: Mutex, pc: ClientPc): Option<State> {
    if m in s.owner then None else Some(Move(Take(s, m, Client(t)), t, pc))
  }

  /** ns_buffer_define and its siblings: make_op; a client calls them only while the buffer is active. */
  function BeginWrite(s: State, t: nat, n: Name, c: Call): Option<State> {
    if s.running && (t in s.clients ==> s.clients[t] == Idle) then
      Some(s.(clients := s.clients[t := EnqLock(s.nextId)],
              ops := s.ops[s.nextId := NsOp(n, c, None, false, None)],
              req := s.req[s.nextId := WriteReq(n, c)],
              hist := s.hist + [Inv(s.nextId, WriteReq(n, c))],
              nextId := s.nextId + 1))
    else None
  }

  /** ns_buffer_read_lock, entered while the buffer is active. */
  function BeginRead(s: State, t: nat, n: Name, f: EnvId): Option<State> {
    if s.running && (t in s.clients ==> s.clients[t] == Idle) then
      Some(s.(clients := s.clients[t := RegLock(s.nextId, n)],
              req := s.req[s.nextId := ReadReq(n, f)],
              hist := s.hist + [Inv(s.nextId, ReadReq(n, f))],
              nextId := s.nextId + 1))
    else None
  }

  /** The tail still belongs to the list that starts at the head. */
  predicate TailAttached(s: State) {
    s.qtail.None? || s.qhead.Some?
  }

  /** The tail points at an operation that is gone. */
  predicate TailFreed(s: State) {
    s.qtail.Some? && s.qtail.value !in s.ops
  }

  /** enqueue_op: link behind the tail if there is one, then signal. */
  function Enqueue(s: State, t: nat, o: OpId): State {
    Move(Release(s, QueueMtx), t, WaitLock(o)).(
      qhead := if s.qtail.Some? then s.qhead else Some(o),
      qtail := Some(o),
      ops := Linked(s.ops, s.qtail, o),
      prep := Signalled(s.prep),
      arrived := if TailAttached(s) then s.arrived + [o] else s.arrived,
      lost := if TailAttached(s) then s.lost else s.lost + [o],
      wild := s.wild || TailFreed(s))
  }

  /** After wait_op: take the result out and free the operation. */
  function CollectOp(s: State, t: nat, o: OpId): Option<State> {
    if o in s.ops && s.ops[o].result.Some? then
      Some(Move(s, t, Idle).(
        ops := s.ops - {o},
        hist := s.hist + [Ret(o, Wrote(s.ops[o].result.value))]))
    else None
  }

  function ReadNow(cfg: Config, s: State, t: nat, o: OpId, n: Name): State
    requires o in s.req && s.req[o].ReadReq?
  {
    var out := Got(cfg.look(s.env, s.req[o].env, n));
    Move(Release(s, EnvMtx), t, Idle).(
      effects := s.effects + [Effect(o, ReadReq(n, s.req[o].env), out)],
      hist := s.hist + [Ret(o, out)])
  }

  function ClientNext(cfg: Config, s: State, t: nat): Option<State>
    requires t in s.clients
  {
    match s.clients[t]
    case Idle => None
    case EnqLock(o) => ClientLock(s, t, QueueMtx, Enq(o))
    case Enq(o) => Some(Enqueue(s, t, o))
    case WaitLock(o) => ClientLock(s, t, DoneMtx(o), WaitCheck(o))
    case WaitCheck(o) =>
      if o in s.ops then
        Some(Move(Release(s, DoneMtx(o)), t, if s.ops[o].completed then Collect(o) else WaitAsleep(o)))
      else None
    case WaitAsleep(o) => None
    case WaitWake(o) => ClientLock(s, t, DoneMtx(o), WaitCheck(o))
    case Collect(o) => CollectOp(s, t, o)
    case RegLock(o, n) => ClientLock(s, t, SymbolsMtx, Reg(o, n))
    case Reg(o, n) => Some(Move(Release(s, SymbolsMtx), t, if n in s.symbols then DrainLock(o, n) else ReadLock(o, n)))
    case DrainLock(o, n) => ClientLock(s, t, SymLock(n), Drain(o, n))
    case Drain(o, n) =>
      if n in s.symbols then
        Some(Move(Release(s, SymLock(n)), t, if s.symbols[n].pending > 0 then DrainAsleep(o, n) else ReadLock(o, n)))
      else None
    case DrainAsleep(o, n) => None
    case DrainWake(o, n) => ClientLock(s, t, SymLock(n), Drain(o, n))
    case ReadLock(o, n) => ClientLock(s, t, EnvMtx, Read(o, n))
    case Read(o, n) => if o in s.req && s.req[o].ReadReq? then Some(ReadNow(cfg, s, t, o, n)) else None
  }

  // ----- runs -----

  datatype Step =
    | PrepStep
    | CloserStep
    | ClientStep(t: nat)
    | WriteStep(t: nat, name: Name, call: Call)
    | ReadStep(t: nat, name: Name, env: EnvId)
    | PrepSpurious
    | ClientSpurious(t: nat)

  /** A wait that ends without a signal. */
  function Roused(pc: ClientPc): ClientPc {
    match pc
    case WaitAsleep(o) => WaitWake(o)
    case DrainAsleep(o, n) => DrainWake(o, n)
    case _ => pc
  }

  function Next(cfg: Config, s: State, step: Step): Option<State> {
    match step
    case PrepStep => PrepNext(cfg, s)
    case CloserStep => CloserNext(s)
    case ClientStep(t) => if t in s.clients then ClientNext(cfg, s, t) else None
    case WriteStep(t, n, c) => BeginWrite(s, t, n, c)
    case ReadStep(t, n, f) => BeginRead(s, t, n, f)
    case PrepSpurious => Some(s.(prep := Signalled(s.prep)))
    case ClientSpurious(t) => if t in s.clients then Some(Move(s, t, Roused(s.clients[t]))) else None
  }

  /** The state after `steps`, or None if one of them is not possible where it stands. */
  function Run(cfg: Config, steps: seq<Step>): Option<State> {
    if steps == [] then Some(Start(cfg))
    else
      var before := Run(cfg, steps[..|steps| - 1]);
      if before.None? then None else Next(cfg, before.value, steps[|steps| - 1])
  }
}
