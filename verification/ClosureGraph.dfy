/**
 * Serializing a cyclic graph of environments and functions and reading it back: the ids
 * and references of ser_env and ser_value (src/builtins.c:1692-1756, 1917-2049,
 * 2776-2869) and of deser_env and deser_val (src/builtins.c:3454-3592, 3778-3839).
 *
 * The writer puts an environment's values before its parent; the reader builds the parent
 * first.  The `env` of a pointer is written, but never read: an alias comes back without
 * the environment that it leads to.
 */
module ClosureGraph {
  import opened Common

  // ----- graphs -----

  /** The element type and shape of a tensor, a map, whose keys and values alternate, or names for the values. */
  datatype Frame = Grid(elem: nat, shape: seq<nat>) | Dict | Names(names: seq<string>)

  /**
   * What an entry holds: nothing, data, a function, a tensor or map of these, or the name
   * that an alias leads to, and the environment to look it up in, if not the entry's own.
   */
  datatype Val =
    | Unset
    | Atom(n: int)
    | Fn(f: nat)
    | Many(frame: Frame, vs: seq<Val>)
    | Link(target: string, env: Option<nat>)

  /** An entry; type 0 is the unknown type. */
  datatype Slot = Slot(name: string, val: Val, ty: nat, frozen: bool, perma: bool)

  /** The schemas of the entries, with their names, are one value. */
  datatype EnvNode = EnvNode(slots: seq<Slot>, schemas: Val, parent: Option<nat>)

  /** Name, types, parameters and body of a function are opaque. */
  datatype FuncNode = FuncNode(info: nat, closure: nat)

  datatype Graph = Graph(envs: map<nat, EnvNode>, funcs: map<nat, FuncNode>)

  const NO_SCHEMAS := Many(Names([]), [])

  const NO_SCHEMAS_TEXT := TMany(Names([]), [])

  predicate Storable(v: Val) {
    !v.Unset? && !v.Link?
  }

  /** References lead somewhere; containers hold values. */
  predicate ValOk(g: Graph, v: Val) {
    match v
    case Unset => true
    case Atom(_) => true
    case Fn(f) => f in g.funcs
    case Many(_, vs) => forall i | 0 <= i < |vs| :: Storable(vs[i]) && ValOk(g, vs[i])
    case Link(_, env) => env.Some? ==> env.value in g.envs
  }

  /** Every reference leads somewhere, and the parents of an environment have smaller numbers. */
  ghost predicate Closed(g: Graph) {
    && (forall e :: e in g.envs ==>
          && (forall k | 0 <= k < |g.envs[e].slots| :: ValOk(g, g.envs[e].slots[k].val))
          && Storable(g.envs[e].schemas) && ValOk(g, g.envs[e].schemas)
          && (g.envs[e].parent.Some? ==> g.envs[e].parent.value in g.envs && g.envs[e].parent.value < e))
    && (forall f :: f in g.funcs ==> g.funcs[f].closure in g.envs)
  }

  predicate HasName(slots: seq<Slot>, name: string) {
    exists k :: 0 <= k < |slots| && slots[k].name == name
  }

  /** The nearest environment from e upwards that has the name (env_get_entry_raw_with_env). */
  function Resolve(g: Graph, e: nat, name: string): (o: Option<nat>)
    requires e in g.envs
    ensures o.Some? ==> o.value in g.envs && HasName(g.envs[o.value].slots, name)
    decreases e
  {
    if HasName(g.envs[e].slots, name) then Some(e)
    else if g.envs[e].parent.None? || g.envs[e].parent.value !in g.envs || g.envs[e].parent.value >= e then None
    else Resolve(g, g.envs[e].parent.value, name)
  }

  /** env_find_owner, and the environment itself if there is none. */
  function Owner(g: Graph, e: nat, name: string): (o: nat)
    requires e in g.envs
    ensures o in g.envs
  {
    if Resolve(g, e, name).Some? then Resolve(g, e, name).value else e
  }

  /** An entry that neither is set nor has a type nor is frozen is not written at all. */
  predicate LeavesTrace(s: Slot) {
    s.val != Unset || s.ty != 0 || s.frozen || s.perma
  }

  function Traces(slots: seq<Slot>): (r: seq<Slot>)
    ensures forall k | 0 <= k < |r| :: r[k] in slots
  {
    if slots == [] then [] else (if LeavesTrace(slots[0]) then [slots[0]] else []) + Traces(slots[1..])
  }

  function ValsOf(slots: seq<Slot>): (r: seq<Val>)
    ensures |r| == |slots| && forall k | 0 <= k < |r| :: r[k] == slots[k].val
  {
    seq(|slots|, k requires 0 <= k < |slots| => slots[k].val)
  }

  /** The values of an environment in the order in which they are written: the entries, then the schemas. */
  function Contents(n: EnvNode): (r: seq<Val>) {
    ValsOf(Traces(n.slots)) + [n.schemas]
  }

  /** Values that an environment may hold, or a tensor or map. */
  ghost predicate AllOk(g: Graph, e: nat, vs: seq<Val>) {
    forall i | 0 <= i < |vs| :: ValOk(g, vs[i]) && (vs[i].Link? ==> e in g.envs)
  }

  lemma ContentsOk(g: Graph, e: nat)
    requires Closed(g) && e in g.envs
    ensures AllOk(g, e, Contents(g.envs[e]))
  {
    hide ValOk;
    var ss, vs := Traces(g.envs[e].slots), Contents(g.envs[e]);
    forall i | 0 <= i < |vs| ensures ValOk(g, vs[i]) {
      if i < |ss| {
        assert ss[i] in g.envs[e].slots;
      }
    }
  }

  // ----- what is written -----

  datatype TVal =
    | TUnset
    | TAtom(n: int)
    | TFuncRef(id: nat)
    | TFuncDef(id: nat, info: nat, closure: TEnv)
    | TMany(frame: Frame, vs: seq<TVal>)
    | TLink(target: string, env: TEnv)

  /** Names, types and flags, which are written as they are. */
  datatype Mark = Mark(name: string, ty: nat, frozen: bool, perma: bool)

  datatype TEnv = ERef(id: nat) | EDef(id: nat, marks: seq<Mark>, vals: seq<TVal>, parent: Option<TEnv>)

  function MarksOf(slots: seq<Slot>): (r: seq<Mark>)
    ensures |r| == |slots|
    ensures forall k | 0 <= k < |r| :: r[k] == Mark(slots[k].name, slots[k].ty, slots[k].frozen, slots[k].perma)
  {
    seq(|slots|, k requires 0 <= k < |slots| => Mark(slots[k].name, slots[k].ty, slots[k].frozen, slots[k].perma))
  }

  /** SerCtx: the environments and functions met so far; the place in the list is the id. */
  datatype Ctx = Ctx(envs: seq<nat>, funcs: seq<nat>)

  function IndexOf(s: seq<nat>, x: nat): (i: nat)
    requires x in s
    ensures i < |s| && s[i] == x
  {
    if s[0] == x then 0 else 1 + IndexOf(s[1..], x)
  }

  function Meet(s: seq<nat>, x: nat): (r: seq<nat>)
    ensures s <= r && x in r
  {
    if x in s then s else s + [x]
  }

  ghost function Unmet(g: Graph, c: Ctx): set<nat> {
    set e | e in g.envs && e !in c.envs
  }

  /** No environment and no function has two ids. */
  ghost predicate OneId(c: Ctx) {
    Distinct(c.envs) && Distinct(c.funcs)
  }

  /** Ids keep their meaning, no id is given twice, and fewer environments are left. */
  ghost predicate Grows(g: Graph, c: Ctx, c': Ctx) {
    && c.envs <= c'.envs && c.funcs <= c'.funcs
    && (OneId(c) ==> OneId(c'))
    && Unmet(g, c') <= Unmet(g, c)
  }

  /** The parents of the environments that were met are met, too. */
  ghost predicate FamilyMet(g: Graph, c: Ctx, c': Ctx) {
    forall e :: e in c'.envs && e !in c.envs && e in g.envs && g.envs[e].parent.Some? ==>
        g.envs[e].parent.value in c'.envs
  }

  lemma MeetingGrows(g: Graph, c: Ctx, e: nat)
    requires e in g.envs && e !in c.envs
    ensures Grows(g, c, c.(envs := c.envs + [e])) && Unmet(g, c.(envs := c.envs + [e])) < Unmet(g, c)
  {
    var c' := c.(envs := c.envs + [e]);
    assert e in Unmet(g, c) && e !in Unmet(g, c');
  }

  /** ser_env; `open` are the functions that are being written. */
  ghost function WriteEnv(g: Graph, e: nat, open: set<nat>, c: Ctx): (r: (TEnv, Ctx))
    requires Closed(g) && e in g.envs
    ensures Grows(g, c, r.1) && FamilyMet(g, c, r.1) && e in r.1.envs
    decreases Unmet(g, c), 0
  {
    if e in c.envs then (ERef(IndexOf(c.envs, e)), c)
    else
      var n := g.envs[e];
      var c1 := c.(envs := c.envs + [e]);
      MeetingGrows(g, c, e);
      ContentsOk(g, e);
      var (vals, c2) := WriteVals(g, e, Contents(n), open, c1);
      assert c2.envs[|c.envs|] == e;
      if n.parent.None? then (EDef(|c.envs|, MarksOf(Traces(n.slots)), vals, None), c2)
      else
        var (p, c3) := WriteEnv(g, n.parent.value, open, c2);
        assert c3.envs[|c.envs|] == e;
        (EDef(|c.envs|, MarksOf(Traces(n.slots)), vals, Some(p)), c3)
  }

  /** What is written of an environment that was not met before. */
  lemma Enters(g: Graph, e: nat, open: set<nat>, c: Ctx)
    requires Closed(g) && e in g.envs && e !in c.envs
    ensures var n, c1 := g.envs[e], c.(envs := c.envs + [e]);
            && (n.parent.Some? ==> n.parent.value in g.envs && n.parent.value < e)
            && AllOk(g, e, Contents(n)) && Grows(g, c, c1) && Unmet(g, c1) < Unmet(g, c)
            && var (vals, c2) := WriteVals(g, e, Contents(n), open, c1);
            && |c.envs| < |c2.envs| && c2.envs[|c.envs|] == e
            && WriteEnv(g, e, open, c) ==
               if n.parent.None? then (EDef(|c.envs|, MarksOf(Traces(n.slots)), vals, None), c2)
               else var (p, c3) := WriteEnv(g, n.parent.value, open, c2);
                    (EDef(|c.envs|, MarksOf(Traces(n.slots)), vals, Some(p)), c3)
  {
    hide Contents, Traces, FamilyMet, AllOk;
    var c1 := c.(envs := c.envs + [e]);
    MeetingGrows(g, c, e);
    ContentsOk(g, e);
    assert WriteVals(g, e, Contents(g.envs[e]), open, c1).1.envs[|c.envs|] == e;
  }

  /**
   * ser_value: a reference to a function only while the function is being written, else its
   * definition, once more if need be.  An alias in e is written with the owner of its target.
   */
  ghost function WriteVal(g: Graph, e: nat, v: Val, open: set<nat>, c: Ctx): (r: (TVal, Ctx))
    requires Closed(g) && ValOk(g, v) && (v.Link? ==> e in g.envs)
    ensures Grows(g, c, r.1) && FamilyMet(g, c, r.1)
    decreases Unmet(g, c), 1, v
  {
    match v
    case Unset => (TUnset, c)
    case Atom(n) => (TAtom(n), c)
    case Many(frame, vs) => var (ts, c1) := WriteVals(g, e, vs, open, c); (TMany(frame, ts), c1)
    case Fn(f) =>
      var c1 := c.(funcs := Meet(c.funcs, f));
      var id := IndexOf(c1.funcs, f);
      if f in open then (TFuncRef(id), c1)
      else
        assert Unmet(g, c1) == Unmet(g, c);
        var (t, c2) := WriteEnv(g, g.funcs[f].closure, open + {f}, c1);
        (TFuncDef(id, g.funcs[f].info, t), c2)
    case Link(target, _) => var (t, c1) := WriteEnv(g, Owner(g, e, target), open, c); (TLink(target, t), c1)
  }

  ghost function WriteVals(g: Graph, e: nat, vs: seq<Val>, open: set<nat>, c: Ctx): (r: (seq<TVal>, Ctx))
    requires Closed(g) && AllOk(g, e, vs)
    ensures Grows(g, c, r.1) && FamilyMet(g, c, r.1)
    decreases Unmet(g, c), 1, vs
  {
    if vs == [] then ([], c)
    else
      var (t, c1) := WriteVal(g, e, vs[0], open, c);
      var (more, c2) := WriteVals(g, e, vs[1..], open, c1);
      ([t] + more, c2)
  }

  // ----- what is read -----

  datatype Info = Info(val: Val, ty: nat, frozen: bool, perma: bool)

  datatype NewEnv = NewEnv(slots: map<string, Info>, schemas: Val, parent: Option<nat>)

  /** A function that only throws stands for one whose definition was not found. */
  datatype NewFunc = NewFunc(info: nat, closure: nat) | Throwing | Building

  /** UnserCtx, with everything that was created. */
  datatype Reader = Reader(envs: map<nat, nat>, funcs: map<nat, nat>, newEnvs: seq<NewEnv>, newFuncs: seq<NewFunc>)

  const BLANK := NewEnv(map[], NO_SCHEMAS, None)

  function Begun(c: Reader, i: nat): Reader {
    c.(envs := c.envs[i := |c.newEnvs|], newEnvs := c.newEnvs + [BLANK])
  }

  function BegunFunc(c: Reader, i: nat, n: NewFunc): Reader {
    c.(funcs := c.funcs[i := |c.newFuncs|], newFuncs := c.newFuncs + [n])
  }

  /** Every id has a cell of its own. */
  ghost predicate OwnCells(c: Reader) {
    && (forall i :: i in c.envs ==> c.envs[i] < |c.newEnvs|)
    && (forall i, j :: i in c.envs && j in c.envs && c.envs[i] == c.envs[j] ==> i == j)
    && (forall i :: i in c.funcs ==> c.funcs[i] < |c.newFuncs|)
    && (forall i, j :: i in c.funcs && j in c.funcs && c.funcs[i] == c.funcs[j] ==> i == j)
  }

  /** Ids keep their cells, the cells that were there are untouched, and cells are kept apart. */
  ghost predicate Further(c: Reader, c': Reader) {
    && (forall i :: i in c.envs ==> i in c'.envs && c'.envs[i] == c.envs[i])
    && (forall i :: i in c.funcs ==> i in c'.funcs && c'.funcs[i] == c.funcs[i])
    && c.newEnvs <= c'.newEnvs && c.newFuncs <= c'.newFuncs
    && (OwnCells(c) ==> OwnCells(c'))
  }

  lemma FurtherOn(a: Reader, b: Reader, c: Reader)
    requires Further(a, b) && Further(b, c)
    ensures Further(a, c)
  {
    hide OwnCells;
  }

  /** A cell of its own for the id, which is filled in the end. */
  lemma FurtherFilled(c: Reader, i: nat, c3: Reader, n: NewEnv)
    requires i !in c.envs && Further(Begun(c, i), c3)
    ensures |c.newEnvs| < |c3.newEnvs| && Further(c, c3.(newEnvs := c3.newEnvs[|c.newEnvs| := n]))
    ensures i in c3.envs && c3.envs[i] == |c.newEnvs| && Further(c, Begun(c, i))
  {
  }

  lemma FurtherDefined(c: Reader, i: nat, c2: Reader, n: NewFunc)
    requires i !in c.funcs && Further(BegunFunc(c, i, Building), c2)
    ensures |c.newFuncs| < |c2.newFuncs| && Further(c, c2.(newFuncs := c2.newFuncs[|c.newFuncs| := n]))
  {
  }

  /** deser_env */
  function ReadEnv(t: TEnv, c: Reader): (r: (nat, Reader))
    ensures Further(c, r.1) && t.id in r.1.envs && r.0 == r.1.envs[t.id]
    decreases t
  {
    if t.id in c.envs then (c.envs[t.id], c)
    else
      var a := |c.newEnvs|;
      var c1 := Begun(c, t.id);
      match t
      case ERef(_) =>
        FurtherFilled(c, t.id, c1, BLANK);
        (a, c1)
      case EDef(_, marks, vals, parent) =>
        var (p, c2) := if parent.None? then (None, c1) else var (x, y) := ReadEnv(parent.value, c1); (Some(x), y);
        var (ws, c3) := ReadVals(vals, c2);
        FurtherOn(c1, c2, c3);
        FurtherFilled(c, t.id, c3, Assemble(marks, ws, p));
        (a, c3.(newEnvs := c3.newEnvs[a := Assemble(marks, ws, p)]))
  }

  /** The entries, and the schemas that follow them; permafrozen sets both flags. */
  function Assemble(marks: seq<Mark>, ws: seq<Val>, parent: Option<nat>): NewEnv {
    NewEnv(Entries(marks, ws), if |ws| == |marks| + 1 then ws[|marks|] else NO_SCHEMAS, parent)
  }

  function Entries(marks: seq<Mark>, ws: seq<Val>): map<string, Info> {
    if marks == [] || |ws| < |marks| then map[]
    else
      var k := |marks| - 1;
      var m := marks[k];
      Entries(marks[..k], ws[..k])[m.name := Info(ws[k], m.ty, m.frozen || m.perma, m.perma)]
  }

  /** deser_val: the tags of values, of functions and of pointers, whose environment is not read. */
  function ReadVal(t: TVal, c: Reader): (r: (Val, Reader))
    ensures Further(c, r.1)
    decreases t
  {
    match t
    case TUnset => (Unset, c)
    case TAtom(n) => (Atom(n), c)
    case TMany(frame, ts) => var (vs, c1) := ReadVals(ts, c); (Many(frame, vs), c1)
    case TLink(target, _) => (Link(target, None), c)
    case TFuncRef(id) =>
      if id in c.funcs then (Fn(c.funcs[id]), c) else (Fn(|c.newFuncs|), BegunFunc(c, id, Throwing))
    case TFuncDef(id, info, closure) =>
      if id in c.funcs then (Fn(c.funcs[id]), c)
      else
        var a := |c.newFuncs|;
        var c1 := BegunFunc(c, id, Building);
        var (e, c2) := ReadEnv(closure, c1);
        FurtherDefined(c, id, c2, NewFunc(info, e));
        (Fn(a), c2.(newFuncs := c2.newFuncs[a := NewFunc(info, e)]))
  }

  function ReadVals(ts: seq<TVal>, c: Reader): (r: (seq<Val>, Reader))
    ensures Further(c, r.1) && |r.0| == |ts|
    decreases ts
  {
    if ts == [] then ([], c)
    else
      var (v, c1) := ReadVal(ts[0], c);
      var (more, c2) := ReadVals(ts[1..], c1);
      FurtherOn(c, c1, c2);
      ([v] + more, c2)
  }
}
