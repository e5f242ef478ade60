/** The buffer in front of the environments of src/env.c. */
module NsBufferEnv {
  import opened Common
  import opened EnvModel
  import opened EnvLaws
  import opened NsBuffer
  import opened NsBufferInvariant
  import opened NsBufferClientSteps
  import opened NsBufferTheorems
  import opened NsBufferProgress

  /** execute_op on the prepare thread, env_get in the readers. */
  function Buffered(matches: Matcher, st: Store): Config {
    Config(st, (s, c) => Execute(matches, s, c), (s, e, n) => Get(s, e, n))
  }

  /** The calls among the effects, in order. */
  function Calls(es: seq<Effect>): seq<Deed> {
    if es == [] then []
    else Calls(es[..|es| - 1]) + if es[|es| - 1].req.WriteReq? then [Direct(es[|es| - 1].req.call)] else []
  }

  /** The environment the buffer arrives at is what the direct operations alone arrive at. */
  lemma {:induction false} EnvIsExecuteAll(matches: Matcher, st: Store, es: seq<Effect>)
    ensures EnvAfter(Buffered(matches, st), es) == ExecuteAll(matches, st, Calls(es))
  {
    if es != [] {
      var before := es[..|es| - 1];
      EnvIsExecuteAll(matches, st, before);
      if es[|es| - 1].req.WriteReq? {
        One(matches, st, Calls(before), Direct(es[|es| - 1].req.call));
      } else {
        assert Calls(es) == Calls(before);
      }
    }
  }

  ghost predicate StepOk(step: Step) {
    step.WriteStep? ==> CallOk(step.call)
  }

  ghost predicate RequestsOk(req: map<OpId, Request>) {
    forall o :: o in req && req[o].WriteReq? ==> CallOk(req[o].call)
  }

  lemma ClientKeepsRequests(cfg: Config, s: State, t: nat)
    requires t in s.clients && ClientNext(cfg, s, t).Some?
    ensures ClientNext(cfg, s, t).value.req == s.req
  {
    hide ClientNext;
    var pc := s.clients[t];
    if ClientWants(pc) {
      LockKeepsRequests(cfg, s, t);
    } else if pc.Enq? || pc.Collect? {
      QueueKeepsRequests(cfg, s, t);
    } else if pc.Read? {
      ReadKeepsRequests(cfg, s, t);
    } else {
      OtherKeepsRequests(cfg, s, t);
    }
  }

  lemma LockKeepsRequests(cfg: Config, s: State, t: nat)
    requires t in s.clients && ClientNext(cfg, s, t).Some? && ClientWants(s.clients[t])
    ensures ClientNext(cfg, s, t).value.req == s.req
  {
    var (m, pc') := ClientGoal(s.clients[t]);
    assert ClientNext(cfg, s, t) == ClientLock(s, t, m, pc');
  }

  lemma QueueKeepsRequests(cfg: Config, s: State, t: nat)
    requires t in s.clients && ClientNext(cfg, s, t).Some? && (s.clients[t].Enq? || s.clients[t].Collect?)
    ensures ClientNext(cfg, s, t).value.req == s.req
  {
  }

  lemma OtherKeepsRequests(cfg: Config, s: State, t: nat)
    requires t in s.clients && ClientNext(cfg, s, t).Some?
    requires !ClientWants(s.clients[t]) && !s.clients[t].Enq? && !s.clients[t].Collect? && !s.clients[t].Read?
    ensures ClientNext(cfg, s, t).value.req == s.req
  {
    OtherMoves(cfg, s, t);
    hide ClientNext;
  }

  lemma ReadKeepsRequests(cfg: Config, s: State, t: nat)
    requires t in s.clients && ClientNext(cfg, s, t).Some? && s.clients[t].Read?
    ensures ClientNext(cfg, s, t).value.req == s.req
  {
  }

  lemma BeginKeepsRequests(cfg: Config, s: State, step: Step)
    requires Next(cfg, s, step).Some? && RequestsOk(s.req) && StepOk(step)
    requires step.WriteStep? || step.ReadStep?
    ensures RequestsOk(Next(cfg, s, step).value.req)
  {
    if step.WriteStep? {
      assert Next(cfg, s, step) == BeginWrite(s, step.t, step.name, step.call);
    } else {
      assert Next(cfg, s, step) == BeginRead(s, step.t, step.name, step.env);
    }
  }

  lemma CloserKeepsRequests(s: State)
    requires CloserNext(s).Some?
    ensures CloserNext(s).value.req == s.req
  {
    if s.closer == Open {
      assert CloserNext(s) == Some(s.(running := false, closer := CloseLock));
    } else if s.closer == CloseLock {
      assert CloserNext(s) == Some(Take(s, QueueMtx, Closer).(closer := CloseSignal));
    } else if s.closer == CloseSignal {
      assert CloserNext(s) == Some(Release(s, QueueMtx).(prep := Signalled(s.prep), closer := Joining));
    }
  }

  lemma StepKeepsRequests(cfg: Config, s: State, step: Step)
    requires Invariant(cfg, s)
    requires Next(cfg, s, step).Some? && RequestsOk(s.req) && StepOk(step)
    ensures RequestsOk(Next(cfg, s, step).value.req)
  {
    hide Invariant, LockInv, ModeInv, QueueInv, OpInv, CurInv, RequestInv, SymInv, WriterInv, ReaderInv, DrainInv,
         OneOwner, EffectInv, EffectIdInv, ResultInv, HistInv;
    hide PrepNext, ClientNext, BeginWrite, BeginRead, CloserNext, RequestsOk;
    if step.PrepStep? {
      PrepDescends(cfg, s, 0);
    } else if step.ClientStep? {
      ClientKeepsRequests(cfg, s, step.t);
    } else if step.WriteStep? || step.ReadStep? {
      BeginKeepsRequests(cfg, s, step);
    } else if step.CloserStep? {
      CloserKeepsRequests(s);
    }
  }

  lemma {:induction false} RunKeepsRequests(cfg: Config, steps: seq<Step>)
    requires Run(cfg, steps).Some? && forall i | 0 <= i < |steps| :: StepOk(steps[i])
    ensures RequestsOk(Run(cfg, steps).value.req)
  {
    hide Next, Invariant, LockInv, ModeInv, QueueInv, OpInv, CurInv, RequestInv, SymInv, WriterInv, ReaderInv,
         DrainInv, OneOwner, EffectInv, EffectIdInv, ResultInv, HistInv;
    if steps != [] {
      RunKeeps(cfg, steps[..|steps| - 1]);
      RunKeepsRequests(cfg, steps[..|steps| - 1]);
      StepKeepsRequests(cfg, Run(cfg, steps[..|steps| - 1]).value, steps[|steps| - 1]);
    }
  }

  lemma {:induction false} CallsOk(es: seq<Effect>, req: map<OpId, Request>)
    requires EffectIdInv(es, req) && RequestsOk(req)
    ensures forall i | 0 <= i < |Calls(es)| :: DeedOk(Calls(es)[i])
  {
    if es != [] {
      CallsOk(es[..|es| - 1], req);
    }
  }

  /**
   * Whatever the clients do and however they interleave: the buffered environment is
   * well formed, keeps to its declared types, and a permafrozen entry of the initial
   * environment is what it was.
   */
  lemma BufferedRunsKeep(matches: Matcher, st: Store, steps: seq<Step>)
    requires StoreOk(st) && forall i | 0 <= i < |steps| :: StepOk(steps[i])
    requires Run(Buffered(matches, st), steps).Some?
    ensures
      var s := Run(Buffered(matches, st), steps).value;
      && s.env == ExecuteAll(matches, st, Calls(s.effects))
      && StoreOk(s.env) && Extends(st, s.env)
      && (forall r :: Exists(st, r) && At(st, r).permafrozen ==> At(s.env, r) == At(st, r))
  {
    var cfg := Buffered(matches, st);
    Linearizable(cfg, steps);
    RunKeeps(cfg, steps);
    RunKeepsRequests(cfg, steps);
    var s := Run(cfg, steps).value;
    assert EffectIdInv(s.effects, s.req) && s.env == EnvAfter(cfg, s.effects);
    hide Invariant, Run, Linearization, EffectIdInv, StoreOk, RequestsOk, Extends;
    EnvIsExecuteAll(matches, st, s.effects);
    CallsOk(s.effects, s.req);
    RunsKeep(matches, st, Calls(s.effects));
  }
}
