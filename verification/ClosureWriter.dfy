/** What the writer of closures writes: a description of the graph in terms of ids. */
module ClosureWriter {
  import opened ClosureGraph

  /** The tree stands for the environment, ids standing for the places in the writer's lists. */
  ghost predicate DescribesEnv(g: Graph, ids: Ctx, t: TEnv, e: nat)
    decreases t
  {
    && e in g.envs && t.id < |ids.envs| && ids.envs[t.id] == e
    && (t.EDef? ==>
          && t.marks == MarksOf(Traces(g.envs[e].slots))
          && DescribesVals(g, ids, t.vals, Contents(g.envs[e]))
          && t.parent.Some? == g.envs[e].parent.Some?
          && (t.parent.Some? ==> DescribesEnv(g, ids, t.parent.value, g.envs[e].parent.value)))
  }

  ghost predicate DescribesVal(g: Graph, ids: Ctx, t: TVal, v: Val)
    decreases t
  {
    match (t, v)
    case (TUnset, Unset) => true
    case (TAtom(n), Atom(m)) => n == m
    case (TMany(frame, ts), Many(frame', vs)) => frame == frame' && DescribesVals(g, ids, ts, vs)
    case (TFuncRef(id), Fn(f)) => id < |ids.funcs| && ids.funcs[id] == f
    case (TFuncDef(id, info, closure), Fn(f)) =>
      && id < |ids.funcs| && ids.funcs[id] == f && f in g.funcs && info == g.funcs[f].info
      && DescribesEnv(g, ids, closure, g.funcs[f].closure)
    case (TLink(target, _), Link(name, _)) => target == name
    case _ => false
  }

  ghost predicate DescribesVals(g: Graph, ids: Ctx, ts: seq<TVal>, vs: seq<Val>)
    decreases ts
  {
    if ts == [] || vs == [] then ts == [] && vs == []
    else DescribesVal(g, ids, ts[0], vs[0]) && DescribesVals(g, ids, ts[1..], vs[1..])
  }

  predicate Later(c: Ctx, ids: Ctx) {
    c.envs <= ids.envs && c.funcs <= ids.funcs
  }

  // ----- the writer describes -----

  lemma {:induction false} WrittenEnv(g: Graph, e: nat, open: set<nat>, c: Ctx, ids: Ctx)
    requires Closed(g) && e in g.envs && Later(WriteEnv(g, e, open, c).1, ids)
    ensures DescribesEnv(g, ids, WriteEnv(g, e, open, c).0, e)
    decreases Unmet(g, c), 0
  {
    hide Contents, Traces, FamilyMet, OneId, Unmet, AllOk, Closed;
    if e !in c.envs {
      hide WriteEnv, WriteVals;
      var n := g.envs[e];
      var c1 := c.(envs := c.envs + [e]);
      Enters(g, e, open, c);
      var (vals, c2) := WriteVals(g, e, Contents(n), open, c1);
      WrittenVals(g, e, Contents(n), open, c1, ids);
      if n.parent.Some? {
        WrittenEnv(g, n.parent.value, open, c2, ids);
      }
    }
  }

  lemma {:induction false} WrittenVal(g: Graph, e: nat, v: Val, open: set<nat>, c: Ctx, ids: Ctx)
    requires Closed(g) && ValOk(g, v) && (v.Link? ==> e in g.envs) && Later(WriteVal(g, e, v, open, c).1, ids)
    ensures DescribesVal(g, ids, WriteVal(g, e, v, open, c).0, v)
    decreases Unmet(g, c), 1, v
  {
    match v {
      case Unset =>
      case Atom(_) =>
      case Many(_, vs) => WrittenVals(g, e, vs, open, c, ids);
      case Link(_, _) =>
      case Fn(f) =>
        if f !in open {
          var c1 := c.(funcs := Meet(c.funcs, f));
          assert Unmet(g, c1) == Unmet(g, c);
          WrittenEnv(g, g.funcs[f].closure, open + {f}, c1, ids);
        }
    }
  }

  lemma {:induction false} WrittenVals(g: Graph, e: nat, vs: seq<Val>, open: set<nat>, c: Ctx, ids: Ctx)
    requires Closed(g) && AllOk(g, e, vs)
    requires Later(WriteVals(g, e, vs, open, c).1, ids)
    ensures DescribesVals(g, ids, WriteVals(g, e, vs, open, c).0, vs)
    decreases Unmet(g, c), 1, vs
  {
    if vs != [] {
      var (t, c1) := WriteVal(g, e, vs[0], open, c);
      var (more, c2) := WriteVals(g, e, vs[1..], open, c1);
      WrittenVals(g, e, vs[1..], open, c1, ids);
      WrittenVal(g, e, vs[0], open, c, ids);
      assert ([t] + more)[1..] == more;
    }
  }
}
