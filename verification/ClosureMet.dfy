/**
 * What the writer of closures writes: exactly the contents of the environments that can be
 * reached from the value through parents, closures and the owners of the targets of aliases.
 */
module ClosureMet {
  import opened Common
  import opened ClosureGraph
  import opened ClosureOrder

  // ----- what the writer comes to -----

  /** A function in the value closes over b, or it is an alias in e whose target b owns. */
  ghost predicate Names(g: Graph, e: nat, v: Val, b: nat) {
    Touches(g, v, b) || (v.Link? && e in g.envs && Owner(g, e, v.target) == b)
  }

  ghost predicate AnyNames(g: Graph, e: nat, vs: seq<Val>, b: nat) {
    exists i | 0 <= i < |vs| :: Names(g, e, vs[i], b)
  }

  /** The writer goes on from a to b. */
  ghost predicate Sees(g: Graph, a: nat, b: nat) {
    a in g.envs && (g.envs[a].parent == Some(b) || AnyNames(g, a, Contents(g.envs[a]), b))
  }

  /** Going on from the value does not get out of the set. */
  ghost predicate AllSeen(g: Graph, v: Val, s: set<nat>) {
    && (forall b | Touches(g, v, b) :: b in s)
    && forall a, b | a in s && Sees(g, a, b) :: b in s
  }

  /** The writer gets to e from the value: e is in every set that it does not get out of. */
  ghost predicate Meets(g: Graph, v: Val, e: nat) {
    forall s: set<nat> | AllSeen(g, v, s) :: e in s
  }

  // ----- no more than that -----

  ghost predicate NewIn(c: Ctx, c': Ctx, s: set<nat>) {
    forall a | New(c, c', a) :: a in s
  }

  ghost predicate SeenClosed(g: Graph, s: set<nat>) {
    forall a, b | a in s && Sees(g, a, b) :: b in s
  }

  lemma {:induction false} EnvMeetsInside(g: Graph, e: nat, open: set<nat>, c: Ctx, s: set<nat>)
    requires Closed(g) && e in g.envs && e in s && SeenClosed(g, s)
    ensures NewIn(c, WriteEnv(g, e, open, c).1, s)
    decreases Unmet(g, c), 0
  {
    hide Contents, FamilyMet, OneId, Unmet, AllOk, Closed, AnyNames;
    if e !in c.envs {
      hide WriteEnv, WriteVals;
      var n := g.envs[e];
      var c1 := c.(envs := c.envs + [e]);
      Enters(g, e, open, c);
      assert forall b | AnyNames(g, e, Contents(n), b) :: Sees(g, e, b);
      ValsMeetInside(g, e, Contents(n), open, c1, s);
      if n.parent.Some? {
        assert Sees(g, e, n.parent.value);
        EnvMeetsInside(g, n.parent.value, open, WriteVals(g, e, Contents(n), open, c1).1, s);
      }
    }
  }

  lemma {:induction false} ValMeetsInside(g: Graph, e: nat, v: Val, open: set<nat>, c: Ctx, s: set<nat>)
    requires Closed(g) && ValOk(g, v) && (v.Link? ==> e in g.envs) && SeenClosed(g, s)
    requires forall b | Names(g, e, v, b) :: b in s
    ensures NewIn(c, WriteVal(g, e, v, open, c).1, s)
    decreases Unmet(g, c), 1, v
  {
    hide Owner, WriteEnv, WriteVals, SeenClosed, FamilyMet, OneId;
    match v {
      case Unset =>
      case Atom(_) =>
      case Many(_, vs) =>
        assert forall b | AnyNames(g, e, vs, b) :: Names(g, e, v, b);
        ValsMeetInside(g, e, vs, open, c, s);
      case Link(target, _) =>
        assert Names(g, e, v, Owner(g, e, target));
        EnvMeetsInside(g, Owner(g, e, target), open, c, s);
      case Fn(f) =>
        if f !in open {
          var c1 := c.(funcs := Meet(c.funcs, f));
          assert Unmet(g, c1) == Unmet(g, c);
          assert Names(g, e, v, g.funcs[f].closure);
          EnvMeetsInside(g, g.funcs[f].closure, open + {f}, c1, s);
        }
    }
  }

  lemma {:induction false} ValsMeetInside(g: Graph, e: nat, vs: seq<Val>, open: set<nat>, c: Ctx, s: set<nat>)
    requires Closed(g) && AllOk(g, e, vs) && SeenClosed(g, s)
    requires forall b | AnyNames(g, e, vs, b) :: b in s
    ensures NewIn(c, WriteVals(g, e, vs, open, c).1, s)
    decreases Unmet(g, c), 1, vs
  {
    hide Names, SeenClosed, FamilyMet, OneId;
    if vs != [] {
      var (t, c1) := WriteVal(g, e, vs[0], open, c);
      assert forall b | Names(g, e, vs[0], b) :: AnyNames(g, e, vs, b);
      ValMeetsInside(g, e, vs[0], open, c, s);
      assert forall b | AnyNames(g, e, vs[1..], b) :: AnyNames(g, e, vs, b);
      ValsMeetInside(g, e, vs[1..], open, c1, s);
    }
  }

  // ----- and no less -----

  /** A function that is being written closes over an environment that was met. */
  ghost predicate OpenMet(g: Graph, open: set<nat>, met: set<nat>) {
    forall f | f in open :: f in g.funcs && g.funcs[f].closure in met
  }

  /** What is new leads to nothing that was not met. */
  ghost predicate NewSee(g: Graph, c: Ctx, c': Ctx, last: Ctx) {
    forall a, b | New(c, c', a) && Sees(g, a, b) :: b in last.envs
  }

  lemma NewSeeOn(g: Graph, a: Ctx, b: Ctx, c: Ctx)
    requires NewSee(g, a, b, b) && NewSee(g, b, c, c) && b.envs <= c.envs
    ensures NewSee(g, a, c, c)
  {
    hide Sees;
  }

  lemma EnteredSees(g: Graph, e: nat, c: Ctx, last: Ctx)
    requires e in g.envs && (g.envs[e].parent.Some? ==> g.envs[e].parent.value in last.envs)
    requires (forall b | AnyNames(g, e, Contents(g.envs[e]), b) :: b in last.envs)
    requires NewSee(g, Entered(c, e), last, last)
    ensures NewSee(g, c, last, last)
  {
    hide AnyNames, Contents;
  }

  lemma {:induction false} EnvMeetsAll(g: Graph, e: nat, open: set<nat>, c: Ctx)
    requires Closed(g) && e in g.envs && OpenMet(g, open, Met(c) + {e})
    ensures NewSee(g, c, WriteEnv(g, e, open, c).1, WriteEnv(g, e, open, c).1)
    decreases Unmet(g, c), 0
  {
    hide Contents, FamilyMet, OneId, Unmet, AllOk, Closed, AnyNames;
    if e !in c.envs {
      hide WriteEnv, WriteVals, NewSee;
      var n := g.envs[e];
      var c1 := Entered(c, e);
      Enters(g, e, open, c);
      assert Met(c1) == Met(c) + {e};
      var c2 := WriteVals(g, e, Contents(n), open, c1).1;
      ValsMeetAll(g, e, Contents(n), open, c1);
      if n.parent.Some? {
        assert Met(c1) <= Met(c2) + {n.parent.value};
        EnvMeetsAll(g, n.parent.value, open, c2);
        NewSeeOn(g, c1, c2, WriteEnv(g, n.parent.value, open, c2).1);
      }
      EnteredSees(g, e, c, WriteEnv(g, e, open, c).1);
    }
  }

  lemma {:induction false} ValMeetsAll(g: Graph, e: nat, v: Val, open: set<nat>, c: Ctx)
    requires Closed(g) && ValOk(g, v) && (v.Link? ==> e in g.envs) && OpenMet(g, open, Met(c))
    ensures NewSee(g, c, WriteVal(g, e, v, open, c).1, WriteVal(g, e, v, open, c).1)
    ensures forall b | Names(g, e, v, b) :: b in WriteVal(g, e, v, open, c).1.envs
    decreases Unmet(g, c), 1, v
  {
    hide Owner, WriteEnv, WriteVals, NewSee, FamilyMet, OneId;
    match v {
      case Unset => NothingNew(g, c, c);
      case Atom(_) => NothingNew(g, c, c);
      case Many(_, vs) =>
        ValsMeetAll(g, e, vs, open, c);
        forall b | Names(g, e, v, b) ensures AnyNames(g, e, vs, b) {
          var i :| 0 <= i < |vs| && Touches(g, vs[i], b);
          assert Names(g, e, vs[i], b);
        }
      case Link(target, _) =>
        assert Met(c) <= Met(c) + {Owner(g, e, target)};
        EnvMeetsAll(g, Owner(g, e, target), open, c);
      case Fn(f) =>
        var c1 := c.(funcs := Meet(c.funcs, f));
        if f !in open {
          assert Unmet(g, c1) == Unmet(g, c);
          EnvMeetsAll(g, g.funcs[f].closure, open + {f}, c1);
          NothingNew(g, c, c1);
          NewSeeOn(g, c, c1, WriteEnv(g, g.funcs[f].closure, open + {f}, c1).1);
        } else {
          NothingNew(g, c, c1);
        }
    }
  }

  lemma NothingNew(g: Graph, c: Ctx, c': Ctx)
    requires c.envs == c'.envs
    ensures NewSee(g, c, c', c')
  {
  }

  lemma {:induction false} ValsMeetAll(g: Graph, e: nat, vs: seq<Val>, open: set<nat>, c: Ctx)
    requires Closed(g) && AllOk(g, e, vs) && OpenMet(g, open, Met(c))
    ensures NewSee(g, c, WriteVals(g, e, vs, open, c).1, WriteVals(g, e, vs, open, c).1)
    ensures forall b | AnyNames(g, e, vs, b) :: b in WriteVals(g, e, vs, open, c).1.envs
    decreases Unmet(g, c), 1, vs
  {
    hide Names, NewSee, FamilyMet, OneId;
    if vs == [] {
      NothingNew(g, c, c);
    } else {
      var (t, c1) := WriteVal(g, e, vs[0], open, c);
      var c2 := WriteVals(g, e, vs[1..], open, c1).1;
      ValMeetsAll(g, e, vs[0], open, c);
      ValsMeetAll(g, e, vs[1..], open, c1);
      NewSeeOn(g, c, c1, c2);
      forall b | AnyNames(g, e, vs, b) ensures b in c2.envs {
        var i :| 0 <= i < |vs| && Names(g, e, vs[i], b);
        if i > 0 {
          assert vs[1..][i - 1] == vs[i];
          assert AnyNames(g, e, vs[1..], b);
        }
      }
    }
  }

  /** The writer meets exactly what it can get to. */
  lemma MetExactly(g: Graph, v: Val, e: nat)
    requires Closed(g) && ValOk(g, v) && Storable(v)
    ensures e in WriteVal(g, 0, v, {}, NO_IDS).1.envs <==> Meets(g, v, e)
  {
    hide WriteVal, Sees, Closed, ValOk;
    var c := WriteVal(g, 0, v, {}, NO_IDS).1;
    assert AllSeen(g, v, Met(c)) by {
      ValMeetsAll(g, 0, v, {}, NO_IDS);
    }
    forall s: set<nat> | AllSeen(g, v, s) && e in c.envs ensures e in s {
      ValMeetsInside(g, 0, v, {}, NO_IDS, s);
    }
  }

  // ----- the data that is written -----

  /** What can be told of a part without reading it. */
  datatype Kind = NoKind | DataKind(n: int) | FuncKind | ManyKind(frame: Frame)

  /** A datum, or a tensor or map with the kinds of its parts. */
  datatype Item = Datum(n: int) | Framed(frame: Frame, kinds: seq<Kind>)

  function KindOf(v: Val): Kind {
    match v
    case Atom(n) => DataKind(n)
    case Fn(_) => FuncKind
    case Many(frame, _) => ManyKind(frame)
    case _ => NoKind
  }

  function KindsOf(vs: seq<Val>): (r: seq<Kind>)
    ensures |r| == |vs| && forall i | 0 <= i < |r| :: r[i] == KindOf(vs[i])
  {
    seq(|vs|, i requires 0 <= i < |vs| => KindOf(vs[i]))
  }

  predicate Carries(v: Val, x: Item)
    decreases v
  {
    match v
    case Atom(n) => x == Datum(n)
    case Many(frame, vs) =>
      || (!frame.Names? && x == Framed(frame, KindsOf(vs)))
      || exists i | 0 <= i < |vs| :: Carries(vs[i], x)
    case _ => false
  }

  predicate AnyHolds(vs: seq<Val>, x: Item) {
    exists i | 0 <= i < |vs| :: Carries(vs[i], x)
  }

  predicate EnvHolds(g: Graph, e: nat, x: Item) {
    e in g.envs && AnyHolds(Contents(g.envs[e]), x)
  }

  ghost predicate NewHolds(g: Graph, c: Ctx, c': Ctx, x: Item) {
    exists a :: New(c, c', a) && EnvHolds(g, a, x)
  }

  function TextKind(t: TVal): Kind {
    match t
    case TAtom(n) => DataKind(n)
    case TFuncRef(_) => FuncKind
    case TFuncDef(_, _, _) => FuncKind
    case TMany(frame, _) => ManyKind(frame)
    case _ => NoKind
  }

  function TextKinds(ts: seq<TVal>): (r: seq<Kind>)
    ensures |r| == |ts| && forall i | 0 <= i < |r| :: r[i] == TextKind(ts[i])
  {
    seq(|ts|, i requires 0 <= i < |ts| => TextKind(ts[i]))
  }

  lemma {:induction false} WrittenKinds(g: Graph, e: nat, vs: seq<Val>, open: set<nat>, c: Ctx)
    requires Closed(g) && AllOk(g, e, vs)
    ensures TextKinds(WriteVals(g, e, vs, open, c).0) == KindsOf(vs)
    decreases vs
  {
    hide FamilyMet, OneId, Grows;
    if vs != [] {
      var (t, c1) := WriteVal(g, e, vs[0], open, c);
      WrittenKinds(g, e, vs[1..], open, c1);
      var more := WriteVals(g, e, vs[1..], open, c1).0;
      assert TextKind(t) == KindOf(vs[0]);
      assert forall i | 0 < i < |vs| :: ([t] + more)[i] == more[i - 1] && vs[i] == vs[1..][i - 1]
                                        && TextKinds(more)[i - 1] == KindsOf(vs[1..])[i - 1];
    }
  }

  /** The item is somewhere in the text. */
  predicate EnvWrites(t: TEnv, x: Item)
    decreases t
  {
    t.EDef? && (ValsWrite(t.vals, x) || (t.parent.Some? && EnvWrites(t.parent.value, x)))
  }

  predicate ValWrites(t: TVal, x: Item)
    decreases t
  {
    match t
    case TAtom(n) => x == Datum(n)
    case TMany(frame, ts) => (!frame.Names? && x == Framed(frame, TextKinds(ts))) || ValsWrite(ts, x)
    case TFuncDef(_, _, closure) => EnvWrites(closure, x)
    case TLink(_, env) => EnvWrites(env, x)
    case _ => false
  }

  predicate ValsWrite(ts: seq<TVal>, x: Item)
    decreases ts
  {
    ts != [] && (ValWrites(ts[0], x) || ValsWrite(ts[1..], x))
  }

  lemma NewHoldsOn(g: Graph, a: Ctx, b: Ctx, c: Ctx, x: Item)
    requires a.envs <= b.envs <= c.envs
    ensures NewHolds(g, a, c, x) <==> NewHolds(g, a, b, x) || NewHolds(g, b, c, x)
  {
    hide EnvHolds;
    if e :| New(a, b, e) && EnvHolds(g, e, x) {
      assert New(a, c, e);
    } else if e :| New(b, c, e) && EnvHolds(g, e, x) {
      assert New(a, c, e);
    }
    if e :| New(a, c, e) && EnvHolds(g, e, x) {
      assert New(a, b, e) || New(b, c, e);
    }
  }

  lemma NoneHolds(g: Graph, c: Ctx, c': Ctx, x: Item)
    requires c.envs == c'.envs
    ensures !NewHolds(g, c, c', x)
  {
  }

  lemma EnteredHolds(g: Graph, e: nat, c: Ctx, x: Item)
    requires e in g.envs && e !in c.envs
    ensures NewHolds(g, c, Entered(c, e), x) <==> AnyHolds(Contents(g.envs[e]), x)
  {
    hide AnyHolds, Contents;
    if AnyHolds(Contents(g.envs[e]), x) {
      assert New(c, Entered(c, e), e) && EnvHolds(g, e, x);
    }
  }

  lemma {:induction false} EnvWritesExactly(g: Graph, e: nat, open: set<nat>, c: Ctx, x: Item)
    requires Closed(g) && e in g.envs
    ensures EnvWrites(WriteEnv(g, e, open, c).0, x) <==> NewHolds(g, c, WriteEnv(g, e, open, c).1, x)
    decreases Unmet(g, c), 0
  {
    hide Contents, FamilyMet, OneId, Unmet, AllOk, Closed, AnyHolds;
    if e in c.envs {
      NoneHolds(g, c, c, x);
    } else {
      hide WriteEnv, WriteVals, NewHolds, ValsWrite;
      var c1 := Entered(c, e);
      Enters(g, e, open, c);
      EnteredHolds(g, e, c, x);
      var (vals, c2) := WriteVals(g, e, Contents(g.envs[e]), open, c1);
      ValsWriteExactly(g, e, Contents(g.envs[e]), open, c1, x);
      NewHoldsOn(g, c, c1, c2, x);
      if g.envs[e].parent.Some? {
        EnvWritesExactly(g, g.envs[e].parent.value, open, c2, x);
        NewHoldsOn(g, c, c2, WriteEnv(g, g.envs[e].parent.value, open, c2).1, x);
      }
    }
  }

  lemma {:induction false} ValWritesExactly(g: Graph, e: nat, v: Val, open: set<nat>, c: Ctx, x: Item)
    requires Closed(g) && ValOk(g, v) && (v.Link? ==> e in g.envs)
    ensures ValWrites(WriteVal(g, e, v, open, c).0, x) <==>
            Carries(v, x) || NewHolds(g, c, WriteVal(g, e, v, open, c).1, x)
    decreases Unmet(g, c), 1, v
  {
    hide Owner, WriteEnv, WriteVals, NewHolds, FamilyMet, OneId, EnvWrites, ValsWrite;
    match v {
      case Unset => NoneHolds(g, c, c, x);
      case Atom(_) => NoneHolds(g, c, c, x);
      case Many(_, vs) =>
        WrittenKinds(g, e, vs, open, c);
        ValsWriteExactly(g, e, vs, open, c, x);
      case Link(target, _) => EnvWritesExactly(g, Owner(g, e, target), open, c, x);
      case Fn(f) =>
        var c1 := c.(funcs := Meet(c.funcs, f));
        NoneHolds(g, c, c1, x);
        if f !in open {
          assert Unmet(g, c1) == Unmet(g, c);
          EnvWritesExactly(g, g.funcs[f].closure, open + {f}, c1, x);
          NewHoldsOn(g, c, c1, WriteEnv(g, g.funcs[f].closure, open + {f}, c1).1, x);
        }
    }
  }

  lemma {:induction false} ValsWriteExactly(g: Graph, e: nat, vs: seq<Val>, open: set<nat>, c: Ctx, x: Item)
    requires Closed(g) && AllOk(g, e, vs)
    ensures ValsWrite(WriteVals(g, e, vs, open, c).0, x) <==>
            AnyHolds(vs, x) || NewHolds(g, c, WriteVals(g, e, vs, open, c).1, x)
    decreases Unmet(g, c), 1, vs
  {
    hide WriteVal, NewHolds, FamilyMet, OneId, ValWrites, Carries;
    if vs == [] {
      NoneHolds(g, c, c, x);
    } else {
      var (t, c1) := WriteVal(g, e, vs[0], open, c);
      var (more, c2) := WriteVals(g, e, vs[1..], open, c1);
      ValWritesExactly(g, e, vs[0], open, c, x);
      ValsWriteExactly(g, e, vs[1..], open, c1, x);
      NewHoldsOn(g, c, c1, c2, x);
      assert ([t] + more)[1..] == more;
      AnyHoldsStep(vs, x);
    }
  }

  lemma AnyHoldsStep(vs: seq<Val>, x: Item)
    requires vs != []
    ensures AnyHolds(vs, x) <==> Carries(vs[0], x) || AnyHolds(vs[1..], x)
  {
    hide Carries;
    if i :| 0 <= i < |vs[1..]| && Carries(vs[1..][i], x) {
      assert vs[i + 1] == vs[1..][i];
    }
    if i :| 0 < i < |vs| && Carries(vs[i], x) {
      assert vs[1..][i - 1] == vs[i];
    }
  }

  /** The item is in the value, or in an environment that the writer gets to. */
  ghost predicate MetHolds(g: Graph, v: Val, x: Item) {
    Carries(v, x) || exists e :: Meets(g, v, e) && EnvHolds(g, e, x)
  }

  /** The text holds exactly the data, tensors and maps of the environments that the writer can get to. */
  lemma WritesExactly(g: Graph, v: Val, x: Item)
    requires Closed(g) && ValOk(g, v) && Storable(v)
    ensures ValWrites(WriteVal(g, 0, v, {}, NO_IDS).0, x) <==> MetHolds(g, v, x)
  {
    hide WriteVal, Closed, ValOk, Meets, EnvHolds;
    var c := WriteVal(g, 0, v, {}, NO_IDS).1;
    ValWritesExactly(g, 0, v, {}, NO_IDS, x);
    forall e ensures New(NO_IDS, c, e) <==> Meets(g, v, e) {
      MetExactly(g, v, e);
    }
  }
}
