/**
 * When the reader of closures meets every definition before the references to it: a
 * condition on the graph, and the proof that it is the right one.
 */
module ClosureOrder {
  import opened Common
  import opened ClosureGraph
  import opened ClosureWriter

  // ----- environments that lead to each other -----

  /** An environment that is like a new one. */
  predicate Bare(g: Graph, e: nat) {
    e in g.envs && Traces(g.envs[e].slots) == [] && g.envs[e].schemas == NO_SCHEMAS && g.envs[e].parent.None?
  }

  /** A function in the value closes over the environment. */
  predicate Touches(g: Graph, v: Val, x: nat) {
    match v
    case Fn(f) => f in g.funcs && g.funcs[f].closure == x
    case Many(_, vs) => exists i | 0 <= i < |vs| :: Touches(g, vs[i], x)
    case _ => false
  }

  /** From an environment to its parent, and to those that its functions close over. */
  predicate LeadsTo(g: Graph, a: nat, b: nat) {
    && a in g.envs
    && (g.envs[a].parent == Some(b) || exists i | 0 <= i < |Contents(g.envs[a])| ::
        Touches(g, Contents(g.envs[a])[i], b))
  }

  ghost predicate Walk(g: Graph, p: seq<nat>, avoid: set<nat>) {
    && p != []
    && (forall i | 0 <= i < |p| :: p[i] !in avoid)
    && forall i | 0 <= i < |p| - 1 :: LeadsTo(g, p[i], p[i + 1])
  }

  /** Some way from a to x meets none of the environments to avoid. */
  ghost predicate Reaches(g: Graph, a: nat, x: nat, avoid: set<nat>) {
    exists p :: Walk(g, p, avoid) && p[0] == a && p[|p| - 1] == x
  }

  lemma BareLeadsNowhere(g: Graph, a: nat, b: nat)
    requires Bare(g, a)
    ensures !LeadsTo(g, a, b)
  {
    assert Contents(g.envs[a]) == [NO_SCHEMAS];
  }

  lemma ReachesItself(g: Graph, a: nat, avoid: set<nat>)
    ensures a !in avoid <==> Reaches(g, a, a, avoid)
  {
    if a !in avoid {
      assert Walk(g, [a], avoid) && [a][0] == a;
    }
  }

  lemma ReachesAvoids(g: Graph, a: nat, x: nat, avoid: set<nat>)
    requires Reaches(g, a, x, avoid)
    ensures a !in avoid && x !in avoid
  {
  }

  /** One step before a way, which may then avoid less. */
  lemma ReachesBefore(g: Graph, a: nat, b: nat, x: nat, avoid: set<nat>, less: set<nat>)
    requires LeadsTo(g, a, b) && a !in less && less <= avoid && Reaches(g, b, x, avoid)
    ensures Reaches(g, a, x, less)
  {
    hide LeadsTo;
    var p :| Walk(g, p, avoid) && p[0] == b && p[|p| - 1] == x;
    var q := [a] + p;
    forall i | 0 <= i < |q| - 1 ensures LeadsTo(g, q[i], q[i + 1]) {
      if i > 0 {
        assert LeadsTo(g, p[i - 1], p[i]);
      }
    }
    assert Walk(g, q, less) && q[0] == a && q[|q| - 1] == x;
  }

  lemma ReachesLess(g: Graph, a: nat, x: nat, avoid: set<nat>, less: set<nat>)
    requires less <= avoid && Reaches(g, a, x, avoid)
    ensures Reaches(g, a, x, less)
  {
    hide LeadsTo;
    var p :| Walk(g, p, avoid) && p[0] == a && p[|p| - 1] == x;
    assert Walk(g, p, less);
  }

  /** A way that only could end at an environment to avoid, avoids them all if it does not. */
  lemma ReachesElse(g: Graph, a: nat, x: nat, avoid: set<nat>, other: set<nat>)
    requires Reaches(g, a, x, avoid) && x !in other
    requires forall y :: Reaches(g, a, y, avoid) && y in other ==> Bare(g, y)
    ensures Reaches(g, a, x, other)
  {
    hide LeadsTo, Bare;
    var p :| Walk(g, p, avoid) && p[0] == a && p[|p| - 1] == x;
    forall i | 0 <= i < |p| ensures p[i] !in other {
      var q := p[..i + 1];
      assert Walk(g, q, avoid) && q[0] == a && q[|q| - 1] == p[i];
      if i < |p| - 1 {
        assert LeadsTo(g, p[i], p[i + 1]);
        if Bare(g, p[i]) {
          BareLeadsNowhere(g, p[i], p[i + 1]);
        }
      }
    }
    assert Walk(g, p, other);
  }

  /** What leads on within a set does not get out of it. */
  lemma ReachesWithin(g: Graph, a: nat, x: nat, avoid: set<nat>, s: set<nat>)
    requires Reaches(g, a, x, avoid) && a in s
    requires forall y, z :: y in s && y !in avoid && LeadsTo(g, y, z) ==> z in s
    ensures x in s
  {
    hide LeadsTo;
    var p :| Walk(g, p, avoid) && p[0] == a && p[|p| - 1] == x;
    var i := 0;
    while i < |p| - 1
      invariant 0 <= i < |p| && p[i] in s
    {
      assert LeadsTo(g, p[i], p[i + 1]);
      i := i + 1;
    }
  }

  // ----- the condition -----

  function Met(c: Ctx): set<nat> {
    set e | e in c.envs
  }

  /**
   * Nothing that is first met inside the values of an environment can be reached from its
   * parent through environments that were not met before; unless it is bare.
   */
  ghost predicate ParentApart(g: Graph, p: nat, before: Ctx, after: Ctx) {
    forall x | x in after.envs && x !in before.envs && Reaches(g, p, x, Met(before)) :: Bare(g, x)
  }

  /** The parents of all environments that are met from here are apart from their values. */
  ghost predicate ApartEnv(g: Graph, e: nat, open: set<nat>, c: Ctx)
    requires Closed(g) && e in g.envs
    decreases Unmet(g, c), 0
  {
    e !in c.envs ==>
      (var n, c1 := g.envs[e], c.(envs := c.envs + [e]);
       MeetingGrows(g, c, e);
       ContentsOk(g, e);
       var c2 := WriteVals(g, e, Contents(n), open, c1).1;
       && ApartVals(g, e, Contents(n), open, c1)
       && (n.parent.Some? ==> ParentApart(g, n.parent.value, c1, c2) && ApartEnv(g, n.parent.value, open, c2)))
  }

  ghost predicate ApartVal(g: Graph, e: nat, v: Val, open: set<nat>, c: Ctx)
    requires Closed(g) && ValOk(g, v) && (v.Link? ==> e in g.envs)
    decreases Unmet(g, c), 1, v
  {
    match v
    case Many(_, vs) => ApartVals(g, e, vs, open, c)
    case Fn(f) =>
      f !in open ==>
        (var c1 := c.(funcs := Meet(c.funcs, f));
         assert Unmet(g, c1) == Unmet(g, c);
         ApartEnv(g, g.funcs[f].closure, open + {f}, c1))
    case _ => true
  }

  ghost predicate ApartVals(g: Graph, e: nat, vs: seq<Val>, open: set<nat>, c: Ctx)
    requires Closed(g) && AllOk(g, e, vs)
    decreases Unmet(g, c), 1, vs
  {
    vs != [] ==> ApartVal(g, e, vs[0], open, c) && ApartVals(g, e, vs[1..], open, WriteVal(g, e, vs[0], open, c).1)
  }

  // ----- the order of reading -----

  /** The environments and functions that have been met. */
  datatype Known = Known(envs: set<nat>, funcs: set<nat>)

  function At(s: seq<nat>, i: nat): nat {
    if i < |s| then s[i] else 0
  }

  /**
   * What is known after reading in the reader's order; none if a reference is met before
   * its definition, unless the environment that it makes is as good as the one it stands for.
   */
  function OrderEnv(g: Graph, ids: Ctx, t: TEnv, k: Known): Option<Known>
    decreases t
  {
    var e := At(ids.envs, t.id);
    if e in k.envs then Some(k)
    else
      var k1 := k.(envs := k.envs + {e});
      match t
      case ERef(_) => if Bare(g, e) then Some(k1) else None
      case EDef(_, _, vals, parent) =>
        var k2 := if parent.None? then Some(k1) else OrderEnv(g, ids, parent.value, k1);
        if k2.None? then None else OrderVals(g, ids, vals, k2.value)
  }

  function OrderVal(g: Graph, ids: Ctx, t: TVal, k: Known): Option<Known>
    decreases t
  {
    match t
    case TMany(_, ts) => OrderVals(g, ids, ts, k)
    case TFuncRef(id) => if At(ids.funcs, id) in k.funcs then Some(k) else None
    case TFuncDef(id, _, closure) =>
      var f := At(ids.funcs, id);
      if f in k.funcs then Some(k) else OrderEnv(g, ids, closure, k.(funcs := k.funcs + {f}))
    case _ => Some(k)
  }

  function OrderVals(g: Graph, ids: Ctx, ts: seq<TVal>, k: Known): Option<Known>
    decreases ts
  {
    if ts == [] then Some(k)
    else
      var k1 := OrderVal(g, ids, ts[0], k);
      if k1.None? then None else OrderVals(g, ids, ts[1..], k1.value)
  }

  predicate Learns(k: Known, k': Known) {
    k.envs <= k'.envs && k.funcs <= k'.funcs
  }

  /** Newly met. */
  predicate New(c: Ctx, c': Ctx, x: nat) {
    x in c'.envs && x !in c.envs
  }

  // ----- only what is defined in a text is learned from it -----

  ghost predicate LearnsNew(g: Graph, k: Known, k': Known, c: Ctx, c': Ctx) {
    && Learns(k, k')
    && forall x :: x in k'.envs && x !in k.envs && !Bare(g, x) ==> New(c, c', x)
  }

  lemma {:induction false} EnvLearnsNew(g: Graph, e: nat, open: set<nat>, c: Ctx, ids: Ctx, k: Known)
    requires Closed(g) && e in g.envs && Later(WriteEnv(g, e, open, c).1, ids)
    requires OrderEnv(g, ids, WriteEnv(g, e, open, c).0, k).Some?
    ensures LearnsNew(g, k, OrderEnv(g, ids, WriteEnv(g, e, open, c).0, k).value, c, WriteEnv(g, e, open, c).1)
    decreases Unmet(g, c), 0
  {
    hide Contents, Traces, FamilyMet, OneId, Unmet, Bare, AllOk, Closed, WriteVals, OrderVals;
    if e !in c.envs {
      hide WriteEnv;
      var n := g.envs[e];
      var c1 := c.(envs := c.envs + [e]);
      Enters(g, e, open, c);
      var (vals, c2) := WriteVals(g, e, Contents(n), open, c1);
      if e !in k.envs {
        var k1 := k.(envs := k.envs + {e});
        if n.parent.Some? {
          var (p, c3) := WriteEnv(g, n.parent.value, open, c2);
          EnvLearnsNew(g, n.parent.value, open, c2, ids, k1);
          ValsLearnNew(g, e, Contents(n), open, c1, ids, OrderEnv(g, ids, p, k1).value);
        } else {
          ValsLearnNew(g, e, Contents(n), open, c1, ids, k1);
        }
      }
    }
  }

  lemma {:induction false} ValLearnsNew(g: Graph, e: nat, v: Val, open: set<nat>, c: Ctx, ids: Ctx, k: Known)
    requires Closed(g) && ValOk(g, v) && (v.Link? ==> e in g.envs) && Later(WriteVal(g, e, v, open, c).1, ids)
    requires OrderVal(g, ids, WriteVal(g, e, v, open, c).0, k).Some?
    ensures LearnsNew(g, k, OrderVal(g, ids, WriteVal(g, e, v, open, c).0, k).value, c, WriteVal(g, e, v, open, c).1)
    decreases Unmet(g, c), 1, v
  {
    hide Bare;
    if v.Many? {
      ValsLearnNew(g, e, v.vs, open, c, ids, k);
    } else if v.Fn? && v.f !in open && v.f !in k.funcs {
      var c1 := c.(funcs := Meet(c.funcs, v.f));
      assert Unmet(g, c1) == Unmet(g, c);
      EnvLearnsNew(g, g.funcs[v.f].closure, open + {v.f}, c1, ids, k.(funcs := k.funcs + {v.f}));
    }
  }

  lemma {:induction false} ValsLearnNew(g: Graph, e: nat, vs: seq<Val>, open: set<nat>, c: Ctx, ids: Ctx, k: Known)
    requires Closed(g) && AllOk(g, e, vs) && Later(WriteVals(g, e, vs, open, c).1, ids)
    requires OrderVals(g, ids, WriteVals(g, e, vs, open, c).0, k).Some?
    ensures LearnsNew(g, k, OrderVals(g, ids, WriteVals(g, e, vs, open, c).0, k).value, c,
            WriteVals(g, e, vs, open, c).1)
    decreases Unmet(g, c), 1, vs
  {
    hide Bare;
    if vs != [] {
      var (t, c1) := WriteVal(g, e, vs[0], open, c);
      var (more, c2) := WriteVals(g, e, vs[1..], open, c1);
      assert ([t] + more)[1..] == more;
      ValLearnsNew(g, e, vs[0], open, c, ids, k);
      ValsLearnNew(g, e, vs[1..], open, c1, ids, OrderVal(g, ids, t, k).value);
    }
  }

  // ----- apart, so in order -----

  /** Whoever waits for its parent to be met is among the waiting. */
  ghost predicate ParentsMet(g: Graph, c: Ctx, waiting: set<nat>, soon: set<nat>) {
    forall y | y in c.envs && y in g.envs && g.envs[y].parent.Some? && y !in waiting ::
      g.envs[y].parent.value in c.envs || g.envs[y].parent.value in soon
  }

  /** Nothing that is newly met, unless bare, can be reached from the parents that are waited for. */
  ghost predicate WaitingApart(g: Graph, waiting: set<nat>, c: Ctx, c': Ctx) {
    forall y | y in waiting && y in g.envs && g.envs[y].parent.Some? :: ParentApart(g, g.envs[y].parent.value, c, c')
  }

  /** Newly met environments are not known, unless bare. */
  ghost predicate Fresh(g: Graph, c: Ctx, c': Ctx, k: Known) {
    forall x :: New(c, c', x) && x in k.envs ==> Bare(g, x)
  }

  /** What the writer has met and the reader can reach is known or bare. */
  ghost predicate Settled(g: Graph, a: nat, c: Ctx, k: Known) {
    forall x | x in c.envs && Reaches(g, a, x, k.envs) :: Bare(g, x)
  }

  ghost predicate SettledVal(g: Graph, v: Val, c: Ctx, k: Known) {
    forall z | Touches(g, v, z) :: Settled(g, z, c, k)
  }

  /** With a function, the environment it closes over is known, or about to be. */
  ghost predicate ClosuresKnown(g: Graph, k: Known, soon: set<nat>) {
    forall f | f in k.funcs && f in g.funcs :: g.funcs[f].closure in k.envs || g.funcs[f].closure in soon
  }

  /** The text can be read in order, and all that was newly met is then known, unless bare. */
  ghost predicate Learned(g: Graph, c: Ctx, c': Ctx, k: Known, order: Option<Known>) {
    && order.Some? && LearnsNew(g, k, order.value, c, c')
    && ClosuresKnown(g, order.value, {})
    && forall x :: New(c, c', x) && x !in order.value.envs ==> Bare(g, x)
  }

  /** If the target of an alias was not met, neither were those on the way up from some waiting environment. */
  lemma {:induction false} OwnerAhead(g: Graph, a: nat, target: string, c: Ctx, waiting: set<nat>) returns (y: nat)
    requires Closed(g) && a in g.envs && ParentsMet(g, c, waiting, {})
    requires Resolve(g, a, target).Some? && Resolve(g, a, target).value !in c.envs
    ensures || (y == a && a !in c.envs && Reaches(g, a, Resolve(g, a, target).value, Met(c)))
            || (y in waiting && y in g.envs && g.envs[y].parent.Some?
                && Reaches(g, g.envs[y].parent.value, Resolve(g, a, target).value, Met(c)))
    decreases a
  {
    hide Reaches, HasName;
    var o := Resolve(g, a, target).value;
    if o == a {
      ReachesItself(g, a, Met(c));
      y := a;
    } else {
      var p := g.envs[a].parent.value;
      y := OwnerAhead(g, p, target, c, waiting);
      if y == p && p !in c.envs && Reaches(g, p, o, Met(c)) {
        if a in c.envs {
          y := a;
        } else {
          ReachesBefore(g, a, p, o, Met(c), Met(c));
          y := a;
        }
      }
    }
  }

  lemma BareAlone(g: Graph, e: nat, open: set<nat>, c: Ctx)
    requires Closed(g) && e !in c.envs && Bare(g, e)
    ensures WriteEnv(g, e, open, c).1 == c.(envs := c.envs + [e])
  {
    var c1 := c.(envs := c.envs + [e]);
    MeetingGrows(g, c, e);
    ContentsOk(g, e);
    assert Contents(g.envs[e]) == [NO_SCHEMAS];
    assert WriteVals(g, e, [], open, c1).1 == c1;
    assert WriteVal(g, e, NO_SCHEMAS, open, c1).1 == c1;
    assert [NO_SCHEMAS][1..] == [];
  }

  function Entered(c: Ctx, e: nat): Ctx {
    c.(envs := c.envs + [e])
  }

  function Knowing(k: Known, e: nat): Known {
    k.(envs := k.envs + {e})
  }

  lemma StillApart(g: Graph, p: nat, a: Ctx, b: Ctx, c: Ctx, d: Ctx)
    requires ParentApart(g, p, a, d) && a.envs <= b.envs && c.envs <= d.envs
    ensures ParentApart(g, p, b, c)
  {
    hide Reaches, Bare;
    forall x | x in c.envs && x !in b.envs && Reaches(g, p, x, Met(b)) ensures Bare(g, x) {
      ReachesLess(g, p, x, Met(b), Met(a));
    }
  }

  lemma StillWaiting(g: Graph, waiting: set<nat>, a: Ctx, b: Ctx, c: Ctx, d: Ctx)
    requires WaitingApart(g, waiting, a, d) && a.envs <= b.envs && c.envs <= d.envs
    ensures WaitingApart(g, waiting, b, c)
  {
    hide ParentApart;
    forall y | y in waiting && y in g.envs && g.envs[y].parent.Some?
      ensures ParentApart(g, g.envs[y].parent.value, b, c) {
      StillApart(g, g.envs[y].parent.value, a, b, c, d);
    }
  }

  /** Settled one step ahead, where the reader knows more and the writer has met that environment, too. */
  lemma SettledAhead(g: Graph, e: nat, b: nat, c: Ctx, k: Known, k': Known)
    requires Settled(g, e, c, k) && LeadsTo(g, e, b) && e !in k.envs && Learns(k, k') && e in k'.envs
    ensures Settled(g, b, Entered(c, e), k')
  {
    hide Reaches, Bare, LeadsTo;
    forall x | x in Entered(c, e).envs && Reaches(g, b, x, k'.envs) ensures Bare(g, x) {
      ReachesAvoids(g, b, x, k'.envs);
      ReachesBefore(g, e, b, x, k'.envs, k.envs);
    }
  }

  /** What is true before the values of e are read: the parent was read already. */
  lemma ValsReady(g: Graph, e: nat, c: Ctx, c2: Ctx, c3: Ctx, waiting: set<nat>, k: Known, k2: Known)
    requires Closed(g) && e in g.envs && e !in c.envs && Entered(c, e).envs <= c2.envs <= c3.envs
    requires ParentsMet(g, c, waiting, {e}) && WaitingApart(g, waiting, c, c3)
    requires g.envs[e].parent.Some? ==> ParentApart(g, g.envs[e].parent.value, Entered(c, e), c2)
    requires Fresh(g, c, c3, k) && Settled(g, e, c, k) && e !in k.envs
    requires LearnsNew(g, Knowing(k, e), k2, c2, c3)
    ensures ParentsMet(g, Entered(c, e), waiting + {e}, {}) && WaitingApart(g, waiting + {e}, Entered(c, e), c2)
    ensures Fresh(g, Entered(c, e), c2, k2)
    ensures forall i | 0 <= i < |Contents(g.envs[e])| :: SettledVal(g, Contents(g.envs[e])[i], Entered(c, e), k2)
  {
    hide Reaches, Bare, Settled, ParentApart, Contents, Touches;
    StillWaiting(g, waiting, c, Entered(c, e), c2, c3);
    forall i, z | 0 <= i < |Contents(g.envs[e])| && Touches(g, Contents(g.envs[e])[i], z)
      ensures Settled(g, z, Entered(c, e), k2) {
      assert LeadsTo(g, e, z);
      SettledAhead(g, e, z, c, k, k2);
    }
  }

  /** What is true before the parent of e is read, whose text was written after the values of e. */
  lemma ParentReady(g: Graph, e: nat, c: Ctx, c2: Ctx, c3: Ctx, waiting: set<nat>, k: Known)
    requires Closed(g) && e in g.envs && e !in c.envs && Entered(c, e).envs <= c2.envs <= c3.envs
             && g.envs[e].parent.Some?
    requires ParentsMet(g, c, waiting, {e}) && FamilyMet(g, Entered(c, e), c2) && WaitingApart(g, waiting, c, c3)
    requires ParentApart(g, g.envs[e].parent.value, Entered(c, e), c2)
    requires Fresh(g, c, c3, k) && Settled(g, e, c, k) && e !in k.envs
    ensures ParentsMet(g, c2, waiting, {g.envs[e].parent.value}) && WaitingApart(g, waiting, c2, c3)
    ensures Fresh(g, c2, c3, Knowing(k, e)) && Settled(g, g.envs[e].parent.value, c2, Knowing(k, e))
  {
    hide Reaches, Bare, Contents, Touches;
    StillWaiting(g, waiting, c, c2, c3, c3);
    var p, k1, c1 := g.envs[e].parent.value, Knowing(k, e), Entered(c, e);
    assert forall y | y in c1.envs :: y in c2.envs by {
      assert c2.envs[..|c1.envs|] == c1.envs;
    }
    assert e in c1.envs && forall y | y in c.envs :: y in c1.envs;
    assert LeadsTo(g, e, p);
    hide LeadsTo;
    SettledAhead(g, e, p, c, k, k1);
    forall x | x in c2.envs && Reaches(g, p, x, k1.envs) ensures Bare(g, x) {
      if x !in c1.envs {
        ReachesElse(g, p, x, k1.envs, Met(c1));
      }
    }
  }

  lemma {:induction false} ApartIsOrdered(g: Graph, e: nat, open: set<nat>, c: Ctx, ids: Ctx, k: Known,
      waiting: set<nat>)
    requires Closed(g) && e in g.envs && Later(WriteEnv(g, e, open, c).1, ids)
    requires ApartEnv(g, e, open, c) && open <= k.funcs
    requires ParentsMet(g, c, waiting, {e}) && WaitingApart(g, waiting, c, WriteEnv(g, e, open, c).1)
    requires Fresh(g, c, WriteEnv(g, e, open, c).1, k) && Settled(g, e, c, k) && ClosuresKnown(g, k, {e})
    ensures Learned(g, c, WriteEnv(g, e, open, c).1, k, OrderEnv(g, ids, WriteEnv(g, e, open, c).0, k))
    ensures e in OrderEnv(g, ids, WriteEnv(g, e, open, c).0, k).value.envs
    decreases Unmet(g, c), 0
  {
    hide Contents, Traces, OneId, Unmet, Bare, AllOk, Closed, WriteVals, OrderVals, Reaches, Settled, ParentApart,
         ApartVals;
    var t := WriteEnv(g, e, open, c).0;
    if e in c.envs {
      if e !in k.envs {
        MetIsKnown(g, e, c, k);
      }
    } else {
      hide WriteEnv;
      Enters(g, e, open, c);
      if e in k.envs {
        BareAlone(g, e, open, c);
      } else {
        var n, c1, k1 := g.envs[e], Entered(c, e), Knowing(k, e);
        var c2 := WriteVals(g, e, Contents(n), open, c1).1;
        var k2 := k1;
        if n.parent.Some? {
          ParentReady(g, e, c, c2, WriteEnv(g, e, open, c).1, waiting, k);
          ApartIsOrdered(g, n.parent.value, open, c2, ids, k1, waiting);
          k2 := OrderEnv(g, ids, t.parent.value, k1).value;
        }
        ValsReady(g, e, c, c2, WriteEnv(g, e, open, c).1, waiting, k, k2);
        ApartAreOrdered(g, e, Contents(n), open, c1, ids, k2, waiting + {e});
        EnvLearnsNew(g, e, open, c, ids, k);
      }
    }
  }

  lemma MetIsKnown(g: Graph, e: nat, c: Ctx, k: Known)
    requires e in c.envs && Settled(g, e, c, k) && e !in k.envs
    ensures Bare(g, e)
  {
    hide Bare;
    ReachesItself(g, e, k.envs);
  }

  lemma {:induction false} ApartValIsOrdered(g: Graph, e: nat, v: Val, open: set<nat>, c: Ctx, ids: Ctx, k: Known,
      waiting: set<nat>)
    requires Closed(g) && ValOk(g, v) && (v.Link? ==> e in g.envs && e in c.envs)
             && Later(WriteVal(g, e, v, open, c).1, ids)
    requires ApartVal(g, e, v, open, c) && open <= k.funcs
    requires ParentsMet(g, c, waiting, {}) && WaitingApart(g, waiting, c, WriteVal(g, e, v, open, c).1)
    requires Fresh(g, c, WriteVal(g, e, v, open, c).1, k) && SettledVal(g, v, c, k) && ClosuresKnown(g, k, {})
    ensures Learned(g, c, WriteVal(g, e, v, open, c).1, k, OrderVal(g, ids, WriteVal(g, e, v, open, c).0, k))
    decreases Unmet(g, c), 1, v, 1
  {
    hide OneId, Bare, Reaches, Settled, ParentApart, WriteVals, OrderVals, WriteEnv, OrderEnv, Closed, ApartVals,
         ApartEnv;
    match v {
      case Unset =>
      case Atom(_) =>
      case Many(_, vs) =>
        assert forall i, z | 0 <= i < |vs| && Touches(g, vs[i], z) :: Touches(g, v, z);
        ApartAreOrdered(g, e, vs, open, c, ids, k, waiting);
      case Link(target, _) => AliasLearnsNothing(g, e, target, open, c, waiting);
      case Fn(f) => ApartFunctionIsOrdered(g, e, f, open, c, ids, k, waiting);
    }
  }

  lemma {:induction false} ApartFunctionIsOrdered(g: Graph, e: nat, f: nat, open: set<nat>, c: Ctx, ids: Ctx,
      k: Known, waiting: set<nat>)
    requires Closed(g) && f in g.funcs && Later(WriteVal(g, e, Fn(f), open, c).1, ids)
    requires ApartVal(g, e, Fn(f), open, c) && open <= k.funcs
    requires ParentsMet(g, c, waiting, {}) && WaitingApart(g, waiting, c, WriteVal(g, e, Fn(f), open, c).1)
    requires Fresh(g, c, WriteVal(g, e, Fn(f), open, c).1, k) && SettledVal(g, Fn(f), c, k) && ClosuresKnown(g, k, {})
    ensures Learned(g, c, WriteVal(g, e, Fn(f), open, c).1, k, OrderVal(g, ids, WriteVal(g, e, Fn(f), open, c).0, k))
    decreases Unmet(g, c), 1, Fn(f), 0
  {
    hide OneId, Bare, Reaches, Settled, ParentApart, WriteEnv, OrderEnv, ApartEnv, ParentsMet, Touches;
    var x := g.funcs[f].closure;
    assert x in g.envs;
    hide Closed;
    var c1 := c.(funcs := Meet(c.funcs, f));
    assert Unmet(g, c1) == Unmet(g, c);
    if f !in open {
      if f in k.funcs {
        KnownClosure(g, f, open, c1, k);
      } else {
        var k1 := k.(funcs := k.funcs + {f});
        FunctionReady(g, f, c, c1, WriteEnv(g, x, open + {f}, c1).1, k, waiting);
        ApartIsOrdered(g, x, open + {f}, c1, ids, k1, waiting);
      }
    }
  }

  lemma FunctionReady(g: Graph, f: nat, c: Ctx, c1: Ctx, c2: Ctx, k: Known, waiting: set<nat>)
    requires Closed(g) && f in g.funcs && c1.envs == c.envs && WaitingApart(g, waiting, c, c2)
    requires SettledVal(g, Fn(f), c, k) && ParentsMet(g, c, waiting, {}) && ClosuresKnown(g, k, {})
    ensures var k1, x := k.(funcs := k.funcs + {f}), g.funcs[f].closure;
            && WaitingApart(g, waiting, c1, c2) && Settled(g, x, c1, k1)
            && ParentsMet(g, c1, waiting, {x}) && ClosuresKnown(g, k1, {x})
  {
    hide Reaches, Bare;
    assert Touches(g, Fn(f), g.funcs[f].closure);
    assert Settled(g, g.funcs[f].closure, c, k);
    StillWaiting(g, waiting, c, c1, c2, c2);
  }

  /** The target of an alias was met before, or is bare. */
  lemma AliasLearnsNothing(g: Graph, e: nat, target: string, open: set<nat>, c: Ctx, waiting: set<nat>)
    requires Closed(g) && e in g.envs && e in c.envs && ParentsMet(g, c, waiting, {})
    requires WaitingApart(g, waiting, c, WriteEnv(g, Owner(g, e, target), open, c).1)
    ensures forall x :: New(c, WriteEnv(g, Owner(g, e, target), open, c).1, x) ==> Bare(g, x)
  {
    hide Bare, Reaches, WriteEnv;
    var o := Owner(g, e, target);
    if o in c.envs {
      AlreadyMet(g, o, open, c);
    } else {
      var y := OwnerAhead(g, e, target, c, waiting);
      BareAlone(g, o, open, c);
    }
  }

  lemma AlreadyMet(g: Graph, e: nat, open: set<nat>, c: Ctx)
    requires Closed(g) && e in g.envs && e in c.envs
    ensures WriteEnv(g, e, open, c) == (ERef(IndexOf(c.envs, e)), c)
  {
  }

  /** A function that is known is defined once more; its environment is known. */
  lemma KnownClosure(g: Graph, f: nat, open: set<nat>, c: Ctx, k: Known)
    requires Closed(g) && f in g.funcs && f in k.funcs && ClosuresKnown(g, k, {})
    requires Fresh(g, c, WriteEnv(g, g.funcs[f].closure, open + {f}, c).1, k)
    ensures forall x :: New(c, WriteEnv(g, g.funcs[f].closure, open + {f}, c).1, x) ==> Bare(g, x)
  {
    hide Bare, WriteEnv;
    var e := g.funcs[f].closure;
    if e in c.envs {
      AlreadyMet(g, e, open + {f}, c);
    } else {
      assert New(c, WriteEnv(g, e, open + {f}, c).1, e);
      BareAlone(g, e, open + {f}, c);
    }
  }

  lemma {:induction false} ApartAreOrdered(g: Graph, e: nat, vs: seq<Val>, open: set<nat>, c: Ctx, ids: Ctx, k: Known,
      waiting: set<nat>)
    requires Closed(g) && AllOk(g, e, vs) && (forall i | 0 <= i < |vs| :: vs[i].Link? ==> e in c.envs)
             && Later(WriteVals(g, e, vs, open, c).1, ids)
    requires ApartVals(g, e, vs, open, c) && open <= k.funcs
    requires ParentsMet(g, c, waiting, {}) && WaitingApart(g, waiting, c, WriteVals(g, e, vs, open, c).1)
    requires Fresh(g, c, WriteVals(g, e, vs, open, c).1, k) && ClosuresKnown(g, k, {})
    requires forall i | 0 <= i < |vs| :: SettledVal(g, vs[i], c, k)
    ensures Learned(g, c, WriteVals(g, e, vs, open, c).1, k, OrderVals(g, ids, WriteVals(g, e, vs, open, c).0, k))
    decreases Unmet(g, c), 1, vs
  {
    hide OneId, Bare, Reaches, ParentApart, WriteVal, OrderVal, Touches, Unmet, Closed, ValOk;
    if vs != [] {
      var (t, c1) := WriteVal(g, e, vs[0], open, c);
      var (more, c2) := WriteVals(g, e, vs[1..], open, c1);
      assert ([t] + more)[1..] == more;
      StillWaiting(g, waiting, c, c, c1, c2);
      ApartValIsOrdered(g, e, vs[0], open, c, ids, k, waiting);
      var k1 := OrderVal(g, ids, t, k).value;
      StillWaiting(g, waiting, c, c1, c2, c2);
      forall i | 0 <= i < |vs[1..]| ensures SettledVal(g, vs[1..][i], c1, k1) {
        StillSettled(g, vs[i + 1], c, c1, k, k1);
      }
      ApartAreOrdered(g, e, vs[1..], open, c1, ids, k1, waiting);
    }
  }

  lemma StillSettled(g: Graph, v: Val, c: Ctx, c1: Ctx, k: Known, k1: Known)
    requires SettledVal(g, v, c, k) && Learned(g, c, c1, k, Some(k1))
    ensures SettledVal(g, v, c1, k1)
  {
    hide Reaches, Bare, Touches;
    forall z, x | Touches(g, v, z) && x in c1.envs && Reaches(g, z, x, k1.envs) ensures Bare(g, x) {
      ReachesAvoids(g, z, x, k1.envs);
      ReachesLess(g, z, x, k1.envs, k.envs);
      assert Settled(g, z, c, k);
    }
  }

  // ----- in order, so apart -----

  /** What the reader knows and the writer has not met leads only to what the reader knows. */
  ghost predicate AheadClosed(g: Graph, c: Ctx, k: Known) {
    forall y, z :: y in k.envs && y !in c.envs && LeadsTo(g, y, z) ==> z in k.envs
  }

  /** So does what was learned. */
  ghost predicate Explored(g: Graph, k: Known, k': Known) {
    forall y, z :: y in k'.envs && y !in k.envs && LeadsTo(g, y, z) ==> z in k'.envs
  }

  lemma BareApart(g: Graph, e: nat, open: set<nat>, c: Ctx)
    requires Closed(g) && Bare(g, e)
    ensures ApartEnv(g, e, open, c)
  {
    if e !in c.envs {
      var c1 := Entered(c, e);
      MeetingGrows(g, c, e);
      ContentsOk(g, e);
      assert Contents(g.envs[e]) == [NO_SCHEMAS] && [NO_SCHEMAS][1..] == [];
      assert ApartVals(g, e, [], open, c1);
      assert ApartVal(g, e, NO_SCHEMAS, open, c1);
    }
  }

  lemma ParentIsApart(g: Graph, p: nat, c1: Ctx, c2: Ctx, k2: Known)
    requires AheadClosed(g, c1, k2) && p in k2.envs && Fresh(g, c1, c2, k2)
    ensures ParentApart(g, p, c1, c2)
  {
    hide Reaches, Bare, LeadsTo;
    forall x | x in c2.envs && x !in c1.envs && Reaches(g, p, x, Met(c1)) ensures Bare(g, x) {
      ReachesWithin(g, p, x, Met(c1), k2.envs);
    }
  }

  lemma {:induction false} OrderedIsApart(g: Graph, e: nat, open: set<nat>, c: Ctx, ids: Ctx, k: Known)
    requires Closed(g) && e in g.envs && Later(WriteEnv(g, e, open, c).1, ids)
    requires OrderEnv(g, ids, WriteEnv(g, e, open, c).0, k).Some?
    requires Fresh(g, c, WriteEnv(g, e, open, c).1, k) && AheadClosed(g, c, k) && ClosuresKnown(g, k, {e})
    ensures ApartEnv(g, e, open, c)
    ensures var k' := OrderEnv(g, ids, WriteEnv(g, e, open, c).0, k).value;
            e in k'.envs && Explored(g, k, k') && ClosuresKnown(g, k', {})
    decreases Unmet(g, c), 0
  {
    hide Contents, Traces, OneId, Unmet, Bare, AllOk, Closed, WriteVals, OrderVals, ParentApart, LeadsTo, ApartVals;
    var (t, c3) := WriteEnv(g, e, open, c);
    if e !in c.envs {
      hide WriteEnv;
      Enters(g, e, open, c);
      if e in k.envs {
        assert New(c, c3, e);
        BareApart(g, e, open, c);
      } else {
        var n, c1, k1 := g.envs[e], Entered(c, e), Knowing(k, e);
        var (vals, c2) := WriteVals(g, e, Contents(n), open, c1);
        var k2 := k1;
        if n.parent.Some? {
          OrderedIsApart(g, n.parent.value, open, c2, ids, k1);
          EnvLearnsNew(g, n.parent.value, open, c2, ids, k1);
          k2 := OrderEnv(g, ids, t.parent.value, k1).value;
        }
        OrderedAreApart(g, e, Contents(n), open, c1, ids, k2);
        ValsLearnNew(g, e, Contents(n), open, c1, ids, k2);
        if n.parent.Some? {
          ParentIsApart(g, n.parent.value, c1, c2, k2);
        }
        AllExplored(g, e, k, k2, OrderVals(g, ids, vals, k2).value);
      }
    } else if e !in k.envs {
      forall z ensures !LeadsTo(g, e, z) {
        BareLeadsNowhere(g, e, z);
      }
    }
  }

  lemma AllExplored(g: Graph, e: nat, k: Known, k2: Known, k3: Known)
    requires e in g.envs && Explored(g, Knowing(k, e), k2) && Explored(g, k2, k3) && Learns(k2, k3)
    requires g.envs[e].parent.Some? ==> g.envs[e].parent.value in k2.envs
    requires forall i, z | 0 <= i < |Contents(g.envs[e])| && Touches(g, Contents(g.envs[e])[i], z) :: z in k3.envs
    ensures Explored(g, k, k3)
  {
    hide Contents, Touches;
  }

  lemma {:induction false} OrderedValIsApart(g: Graph, e: nat, v: Val, open: set<nat>, c: Ctx, ids: Ctx, k: Known)
    requires Closed(g) && ValOk(g, v) && (v.Link? ==> e in g.envs) && Later(WriteVal(g, e, v, open, c).1, ids)
    requires OrderVal(g, ids, WriteVal(g, e, v, open, c).0, k).Some?
    requires Fresh(g, c, WriteVal(g, e, v, open, c).1, k) && AheadClosed(g, c, k) && ClosuresKnown(g, k, {})
    ensures ApartVal(g, e, v, open, c)
    ensures var k' := OrderVal(g, ids, WriteVal(g, e, v, open, c).0, k).value;
            && Explored(g, k, k') && ClosuresKnown(g, k', {})
            && forall z :: Touches(g, v, z) ==> z in k'.envs
    decreases Unmet(g, c), 1, v
  {
    hide OneId, Bare, WriteVals, OrderVals, WriteEnv, OrderEnv, ApartVals, ApartEnv, LeadsTo;
    match v {
      case Unset =>
      case Atom(_) =>
      case Many(_, vs) => OrderedAreApart(g, e, vs, open, c, ids, k);
      case Link(_, _) =>
      case Fn(f) =>
        var c1, x := c.(funcs := Meet(c.funcs, f)), g.funcs[f].closure;
        assert Unmet(g, c1) == Unmet(g, c);
        if f !in open {
          if f in k.funcs {
            KnownIsApart(g, x, open + {f}, c1, k);
          } else {
            OrderedIsApart(g, x, open + {f}, c1, ids, k.(funcs := k.funcs + {f}));
          }
        }
    }
  }

  lemma KnownIsApart(g: Graph, e: nat, open: set<nat>, c: Ctx, k: Known)
    requires Closed(g) && e in g.envs && e in k.envs && Fresh(g, c, WriteEnv(g, e, open, c).1, k)
    ensures ApartEnv(g, e, open, c)
  {
    hide Bare, WriteEnv;
    if e !in c.envs {
      assert New(c, WriteEnv(g, e, open, c).1, e);
      BareApart(g, e, open, c);
    }
  }

  lemma {:induction false} OrderedAreApart(g: Graph, e: nat, vs: seq<Val>, open: set<nat>, c: Ctx, ids: Ctx, k: Known)
    requires Closed(g) && AllOk(g, e, vs) && Later(WriteVals(g, e, vs, open, c).1, ids)
    requires OrderVals(g, ids, WriteVals(g, e, vs, open, c).0, k).Some?
    requires Fresh(g, c, WriteVals(g, e, vs, open, c).1, k) && AheadClosed(g, c, k) && ClosuresKnown(g, k, {})
    ensures ApartVals(g, e, vs, open, c)
    ensures var k' := OrderVals(g, ids, WriteVals(g, e, vs, open, c).0, k).value;
            && Explored(g, k, k') && ClosuresKnown(g, k', {})
            && forall i, z :: 0 <= i < |vs| && Touches(g, vs[i], z) ==> z in k'.envs
    decreases Unmet(g, c), 1, vs
  {
    hide OneId, Bare, WriteVal, OrderVal, ApartVal, LeadsTo, Touches, Unmet, Closed, ValOk;
    if vs != [] {
      var (t, c1) := WriteVal(g, e, vs[0], open, c);
      var (more, c2) := WriteVals(g, e, vs[1..], open, c1);
      assert ([t] + more)[1..] == more;
      OrderedValIsApart(g, e, vs[0], open, c, ids, k);
      ValLearnsNew(g, e, vs[0], open, c, ids, k);
      var k1 := OrderVal(g, ids, t, k).value;
      OrderedAreApart(g, e, vs[1..], open, c1, ids, k1);
      ValsLearnNew(g, e, vs[1..], open, c1, ids, k1);
      var k2 := OrderVals(g, ids, more, k1).value;
      forall i, z | 0 <= i < |vs| && Touches(g, vs[i], z) ensures z in k2.envs {
        if i > 0 {
          assert vs[i] == vs[1..][i - 1];
        }
      }
    }
  }

  // ----- both -----

  const NO_IDS := Ctx([], [])

  const NOTHING := Known({}, {})

  /**
   * The reader meets every definition before the references to it if and only if the parents
   * of the environments are apart from their values.
   */
  lemma OrderedIffApart(g: Graph, v: Val)
    requires Closed(g) && ValOk(g, v) && Storable(v)
    ensures var (t, ids) := WriteVal(g, 0, v, {}, NO_IDS);
            OrderVal(g, ids, t, NOTHING).Some? <==> ApartVal(g, 0, v, {}, NO_IDS)
  {
    hide OrderVal, ApartVal, WriteVal, Reaches;
    var (t, ids) := WriteVal(g, 0, v, {}, NO_IDS);
    if ApartVal(g, 0, v, {}, NO_IDS) {
      ApartValIsOrdered(g, 0, v, {}, NO_IDS, ids, NOTHING, {});
    }
    if OrderVal(g, ids, t, NOTHING).Some? {
      OrderedValIsApart(g, 0, v, {}, NO_IDS, ids, NOTHING);
    }
  }
}
