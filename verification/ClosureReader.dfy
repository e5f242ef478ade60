/** What the reader of closures builds, compared with what it stands for. */
module ClosureReader {
  import opened Common
  import opened ClosureGraph
  import opened ClosureWriter
  import opened ClosureOrder

  // ----- images -----

  /** The value with its functions renamed; an alias keeps no more than its name. */
  ghost predicate Renamed(pf: map<nat, nat>, v: Val, w: Val)
    decreases v
  {
    match (v, w)
    case (Unset, Unset) => true
    case (Atom(n), Atom(m)) => n == m
    case (Fn(f), Fn(a)) => f in pf && pf[f] == a
    case (Many(frame, vs), Many(frame', ws)) =>
      frame == frame' && |vs| == |ws| && forall k | 0 <= k < |vs| :: Renamed(pf, vs[k], ws[k])
    case (Link(x, _), Link(y, env)) => x == y && env.None?
    case _ => false
  }

  ghost predicate RenamedSlot(pf: map<nat, nat>, s: Slot, i: Info) {
    Renamed(pf, s.val, i.val) && i.ty == s.ty && i.frozen == (s.frozen || s.perma) && i.perma == s.perma
  }

  /** Exactly the names of the slots, each with its value, type and flags. */
  ghost predicate RenamedSlots(pf: map<nat, nat>, ss: seq<Slot>, m: map<string, Info>) {
    && (forall x :: x in m ==> HasName(ss, x))
    && (forall k | 0 <= k < |ss| :: ss[k].name in m && RenamedSlot(pf, ss[k], m[ss[k].name]))
  }

  /** The cell of the environment holds its entries and schemas, and leads to the cell of its parent. */
  ghost predicate EnvImage(g: Graph, c: Reader, pe: map<nat, nat>, pf: map<nat, nat>, e: nat) {
    && e in pe && e in g.envs && pe[e] < |c.newEnvs|
    && var n, m := g.envs[e], c.newEnvs[pe[e]];
    && RenamedSlots(pf, Traces(n.slots), m.slots)
    && Renamed(pf, n.schemas, m.schemas)
    && m.parent.Some? == n.parent.Some?
    && (m.parent.Some? ==> n.parent.value in pe && m.parent.value == pe[n.parent.value])
  }

  ghost predicate FuncImage(g: Graph, c: Reader, pe: map<nat, nat>, pf: map<nat, nat>, f: nat) {
    && f in pf && f in g.funcs && pf[f] < |c.newFuncs| && g.funcs[f].closure in pe
    && c.newFuncs[pf[f]] == NewFunc(g.funcs[f].info, pe[g.funcs[f].closure])
  }

  ghost predicate AllImages(g: Graph, c: Reader, pe: map<nat, nat>, pf: map<nat, nat>) {
    && (forall e :: e in pe ==> EnvImage(g, c, pe, pf, e))
    && (forall f :: f in pf ==> FuncImage(g, c, pe, pf, f))
  }

  // ----- the entries of an environment -----

  /** No name occurs twice. */
  ghost predicate NamesDistinct(slots: seq<Slot>) {
    forall j, k | 0 <= j < k < |slots| :: slots[j].name != slots[k].name
  }

  ghost predicate AllNamesDistinct(g: Graph) {
    forall e :: e in g.envs ==> NamesDistinct(g.envs[e].slots)
  }

  lemma {:induction false} TracesDistinct(slots: seq<Slot>)
    requires NamesDistinct(slots)
    ensures NamesDistinct(Traces(slots))
  {
    if slots != [] {
      assert forall k | 0 <= k < |slots[1..]| :: slots[1..][k] == slots[k + 1];
      TracesDistinct(slots[1..]);
      assert forall s | s in slots[1..] :: s.name != slots[0].name;
    }
  }

  function EntryOf(s: Slot, w: Val): Info {
    Info(w, s.ty, s.frozen || s.perma, s.perma)
  }

  /** Exactly the names of the slots, each with its entry. */
  ghost predicate Holds(m: map<string, Info>, ss: seq<Slot>, ws: seq<Val>)
    requires |ss| <= |ws|
  {
    && (forall x :: x in m ==> HasName(ss, x))
    && forall k | 0 <= k < |ss| :: ss[k].name in m && m[ss[k].name] == EntryOf(ss[k], ws[k])
  }

  lemma {:induction false} EntriesAre(ss: seq<Slot>, ws: seq<Val>)
    requires NamesDistinct(ss) && |ss| <= |ws|
    ensures Holds(Entries(MarksOf(ss), ws), ss, ws)
    decreases |ss|
  {
    hide Holds;
    if ss == [] {
      assert Holds(map[], ss, ws) by {
        HoldsNothing(ws);
      }
    } else {
      var k := |ss| - 1;
      EntriesAre(ss[..k], ws[..k]);
      assert MarksOf(ss)[..k] == MarksOf(ss[..k]);
      HoldsMore(Entries(MarksOf(ss[..k]), ws[..k]), ss, ws);
    }
  }

  lemma HoldsNothing(ws: seq<Val>)
    ensures Holds(map[], [], ws)
  {
  }

  lemma HoldsMore(m: map<string, Info>, ss: seq<Slot>, ws: seq<Val>)
    requires ss != [] && |ss| <= |ws| && NamesDistinct(ss) && Holds(m, ss[..|ss| - 1], ws[..|ss| - 1])
    ensures Holds(m[ss[|ss| - 1].name := EntryOf(ss[|ss| - 1], ws[|ss| - 1])], ss, ws)
  {
    hide EntryOf;
    var k := |ss| - 1;
    forall x | HasName(ss[..k], x) ensures HasName(ss, x) {
      var i :| 0 <= i < k && ss[..k][i].name == x;
      assert ss[i].name == x;
    }
    forall j | 0 <= j < k
      ensures ss[j].name in m && m[ss[j].name] == EntryOf(ss[j], ws[j]) && ss[j].name != ss[k].name {
      assert ss[..k][j] == ss[j] && ws[..k][j] == ws[j];
    }
  }

  ghost predicate RenamedAll(pf: map<nat, nat>, vs: seq<Val>, ws: seq<Val>) {
    |vs| == |ws| && forall k | 0 <= k < |vs| :: Renamed(pf, vs[k], ws[k])
  }

  /** What is put together from the values read has the entries and schemas renamed if the values are. */
  lemma AssembleIs(pf: map<nat, nat>, n: EnvNode, ws: seq<Val>, parent: Option<nat>)
    requires NamesDistinct(n.slots) && |ws| == |Contents(n)|
    ensures var m := Assemble(MarksOf(Traces(n.slots)), ws, parent);
            RenamedAll(pf, Contents(n), ws) <==>
                RenamedSlots(pf, Traces(n.slots), m.slots) && Renamed(pf, n.schemas, m.schemas)
  {
    hide Renamed, HasName, Traces;
    var ss, vs := Traces(n.slots), Contents(n);
    var m := Assemble(MarksOf(ss), ws, parent);
    TracesDistinct(n.slots);
    EntriesAre(ss, ws);
    assert vs[|ss|] == n.schemas && m.schemas == ws[|ss|];
    assert forall k | 0 <= k < |ss| :: vs[k] == ss[k].val && m.slots[ss[k].name].val == ws[k];
    if RenamedSlots(pf, ss, m.slots) && Renamed(pf, n.schemas, m.schemas) {
      forall k | 0 <= k < |vs| ensures Renamed(pf, vs[k], ws[k]) {
        if k < |ss| {
          assert RenamedSlot(pf, ss[k], m.slots[ss[k].name]);
        }
      }
    }
  }

  // ----- stretches of reading -----

  /** What was read keeps its cells for good, and the cells that were new their contents. */
  ghost predicate Kept(c: Reader, c': Reader, last: Reader) {
    && (forall i :: i in c'.envs ==> i in last.envs && last.envs[i] == c'.envs[i])
    && (forall i :: i in c'.funcs ==> i in last.funcs && last.funcs[i] == c'.funcs[i])
    && |c'.newEnvs| <= |last.newEnvs| && |c'.newFuncs| <= |last.newFuncs|
    && (forall b | |c.newEnvs| <= b < |c'.newEnvs| :: last.newEnvs[b] == c'.newEnvs[b])
    && (forall b | |c.newFuncs| <= b < |c'.newFuncs| :: last.newFuncs[b] == c'.newFuncs[b])
  }

  /** Of a stretch that is kept, each part is kept. */
  lemma KeptParts(a: Reader, b: Reader, c: Reader, last: Reader)
    requires Further(a, b) && Further(b, c) && Kept(a, c, last)
    ensures Kept(a, b, last) && Kept(b, c, last)
  {
    hide OwnCells;
  }

  lemma KeptBegun(c: Reader, i: nat, c3: Reader, n: NewEnv, last: Reader)
    requires i !in c.envs && Further(Begun(c, i), c3)
    requires |c.newEnvs| < |c3.newEnvs| && Kept(c, c3.(newEnvs := c3.newEnvs[|c.newEnvs| := n]), last)
    ensures Kept(Begun(c, i), c3, last) && i in last.envs && last.envs[i] == |c.newEnvs|
            && last.newEnvs[|c.newEnvs|] == n
  {
    hide OwnCells;
    var c4 := c3.(newEnvs := c3.newEnvs[|c.newEnvs| := n]);
    assert c4.envs == c3.envs && c4.funcs == c3.funcs;
    assert i in c4.envs && c4.envs[i] == |c.newEnvs|;
    assert c4.newEnvs[|c.newEnvs|] == n;
    assert forall b | |c.newEnvs| + 1 <= b < |c3.newEnvs| :: c4.newEnvs[b] == c3.newEnvs[b];
  }

  lemma KeptBegunFunc(c: Reader, i: nat, c2: Reader, n: NewFunc, last: Reader)
    requires i !in c.funcs && Further(BegunFunc(c, i, Building), c2)
    requires |c.newFuncs| < |c2.newFuncs| && Kept(c, c2.(newFuncs := c2.newFuncs[|c.newFuncs| := n]), last)
    ensures Kept(BegunFunc(c, i, Building), c2, last) && i in last.funcs && last.funcs[i] == |c.newFuncs|
            && last.newFuncs[|c.newFuncs|] == n
  {
    hide OwnCells;
    var c3 := c2.(newFuncs := c2.newFuncs[|c.newFuncs| := n]);
    assert c3.envs == c2.envs && c3.funcs == c2.funcs;
    assert i in c3.funcs && c3.funcs[i] == |c.newFuncs|;
    assert c3.newFuncs[|c.newFuncs|] == n;
    assert forall b | |c.newFuncs| + 1 <= b < |c2.newFuncs| :: c3.newFuncs[b] == c2.newFuncs[b];
  }

  function ReadParent(parent: Option<TEnv>, c: Reader): (Option<nat>, Reader) {
    if parent.None? then (None, c) else (Some(ReadEnv(parent.value, c).0), ReadEnv(parent.value, c).1)
  }

  /** The stretches of reading the definition of an environment, and what its cell holds for good. */
  lemma ReadsDefinition(t: TEnv, c: Reader, last: Reader)
    requires t.EDef? && t.id !in c.envs && Kept(c, ReadEnv(t, c).1, last)
    ensures var c1 := Begun(c, t.id);
            var (p, c2) := ReadParent(t.parent, c1);
            var (ws, c3) := ReadVals(t.vals, c2);
            && Kept(c1, c2, last) && Kept(c2, c3, last)
            && |c.newEnvs| < |last.newEnvs| && last.newEnvs[|c.newEnvs|] == Assemble(t.marks, ws, p)
            && ReadEnv(t, c).0 == |c.newEnvs|
            && ReadEnv(t, c).1.envs == c3.envs && ReadEnv(t, c).1.funcs == c3.funcs
            && |ws| == |t.vals|
  {
    hide OwnCells, Further, Kept, ReadVals, Assemble;
    var c1 := Begun(c, t.id);
    var (p, c2) := ReadParent(t.parent, c1);
    var (ws, c3) := ReadVals(t.vals, c2);
    assert Further(c1, c1) by {
      hide *;
      FurtherNothing(c1);
    }
    FurtherOn(c1, c2, c3);
    assert |c1.newEnvs| <= |c3.newEnvs| by {
      FurtherCells(c1, c3);
    }
    KeptBegun(c, t.id, c3, Assemble(t.marks, ws, p), last);
    KeptParts(c1, c2, c3, last);
    KeptCell(c1, c3, last);
  }

  lemma FurtherNothing(c: Reader)
    ensures Further(c, c)
  {
  }

  lemma FurtherCells(c: Reader, c': Reader)
    requires Further(c, c')
    ensures |c.newEnvs| <= |c'.newEnvs| && |c.newFuncs| <= |c'.newFuncs|
  {
  }

  lemma KeptCell(c: Reader, c': Reader, last: Reader)
    requires Kept(c, c', last)
    ensures |c'.newEnvs| <= |last.newEnvs| && |c'.newFuncs| <= |last.newFuncs|
  {
  }

  /** The same for a function. */
  lemma ReadsFunction(id: nat, info: nat, closure: TEnv, c: Reader, last: Reader)
    requires id !in c.funcs && Kept(c, ReadVal(TFuncDef(id, info, closure), c).1, last)
    ensures var c1 := BegunFunc(c, id, Building);
            var (e, c2) := ReadEnv(closure, c1);
            && Kept(c1, c2, last)
            && |c.newFuncs| < |last.newFuncs| && last.newFuncs[|c.newFuncs|] == NewFunc(info, e)
            && ReadVal(TFuncDef(id, info, closure), c).0 == Fn(|c.newFuncs|)
            && ReadVal(TFuncDef(id, info, closure), c).1.envs == c2.envs
            && ReadVal(TFuncDef(id, info, closure), c).1.funcs == c2.funcs
  {
    hide OwnCells, Further, Kept, ReadEnv;
    var c1 := BegunFunc(c, id, Building);
    var (e, c2) := ReadEnv(closure, c1);
    FurtherCells(c1, c2);
    KeptBegunFunc(c, id, c2, NewFunc(info, e), last);
    KeptCell(c1, c2, last);
  }

  // ----- what is known -----

  ghost function NamesOf(m: map<nat, nat>, s: seq<nat>): set<nat> {
    set i | i in m && i < |s| :: s[i]
  }

  /** The environments and functions whose ids were met. */
  ghost function KnownOf(ids: Ctx, c: Reader): Known {
    Known(NamesOf(c.envs, ids.envs), NamesOf(c.funcs, ids.funcs))
  }

  lemma NamedOnce(m: map<nat, nat>, s: seq<nat>, i: nat)
    requires Distinct(s) && i < |s|
    ensures s[i] in NamesOf(m, s) <==> i in m
  {
  }

  lemma NamedMore(m: map<nat, nat>, s: seq<nat>, i: nat, a: nat)
    requires i < |s|
    ensures NamesOf(m[i := a], s) == NamesOf(m, s) + {s[i]}
  {
    var m' := m[i := a];
    forall x ensures x in NamesOf(m', s) <==> x in NamesOf(m, s) + {s[i]} {
      if x in NamesOf(m, s) {
        var j :| j in m && j < |s| && s[j] == x;
        assert j in m';
      }
      if x == s[i] {
        assert i in m';
      }
    }
  }

  // ----- read in order, so an image -----

  /** The maps lead from environments and functions to the cells of their ids. */
  ghost predicate Maps(ids: Ctx, last: Reader, pe: map<nat, nat>, pf: map<nat, nat>) {
    && (forall i :: i in last.envs && i < |ids.envs| ==> ids.envs[i] in pe && pe[ids.envs[i]] == last.envs[i])
    && (forall i :: i in last.funcs && i < |ids.funcs| ==> ids.funcs[i] in pf && pf[ids.funcs[i]] == last.funcs[i])
  }

  /** Everything new is an image of what its id stands for. */
  ghost predicate NewImages(g: Graph, ids: Ctx, c: Reader, c': Reader, last: Reader, pe: map<nat, nat>,
      pf: map<nat, nat>) {
    && (forall i :: i in c'.envs && i !in c.envs ==> i < |ids.envs| && EnvImage(g, last, pe, pf, ids.envs[i]))
    && (forall i :: i in c'.funcs && i !in c.funcs ==> i < |ids.funcs| && FuncImage(g, last, pe, pf, ids.funcs[i]))
  }

  lemma NewImagesOn(g: Graph, ids: Ctx, a: Reader, b: Reader, c: Reader, last: Reader, pe: map<nat, nat>,
      pf: map<nat, nat>)
    requires NewImages(g, ids, a, b, last, pe, pf) && NewImages(g, ids, b, c, last, pe, pf)
    ensures NewImages(g, ids, a, c, last, pe, pf)
  {
    hide EnvImage, FuncImage;
  }

  lemma NoNewImages(g: Graph, ids: Ctx, c: Reader, last: Reader, pe: map<nat, nat>, pf: map<nat, nat>)
    ensures NewImages(g, ids, c, c, last, pe, pf)
  {
  }

  /** The place of an environment that was read. */
  lemma PlaceOf(ids: Ctx, c: Reader, c': Reader, last: Reader, i: nat, pe: map<nat, nat>, pf: map<nat, nat>)
    requires Kept(c, c', last) && Maps(ids, last, pe, pf) && i < |ids.envs| && i in c'.envs
    ensures ids.envs[i] in pe && pe[ids.envs[i]] == c'.envs[i]
  {
  }

  lemma {:induction false} EnvReadInOrder(g: Graph, ids: Ctx, t: TEnv, e: nat, c: Reader, last: Reader,
      pe: map<nat, nat>, pf: map<nat, nat>)
    requires AllNamesDistinct(g) && OneId(ids) && DescribesEnv(g, ids, t, e) && Maps(ids, last, pe, pf)
    requires Kept(c, ReadEnv(t, c).1, last) && OrderEnv(g, ids, t, KnownOf(ids, c)).Some?
    ensures NewImages(g, ids, c, ReadEnv(t, c).1, last, pe, pf)
    ensures KnownOf(ids, ReadEnv(t, c).1) == OrderEnv(g, ids, t, KnownOf(ids, c)).value
    ensures e in pe && pe[e] == ReadEnv(t, c).0
    decreases t
  {
    hide OwnCells, Contents, Traces, ReadVals, DescribesVals, OrderVals, Assemble, EnvImage, FuncImage, NamesOf,
         NamesDistinct, RenamedAll, MarksOf, Bare, Further, Kept, Maps;
    NamedOnce(c.envs, ids.envs, t.id);
    PlaceOf(ids, c, ReadEnv(t, c).1, last, t.id, pe, pf);
    if t.id !in c.envs {
      NamedMore(c.envs, ids.envs, t.id, |c.newEnvs|);
      var c1 := Begun(c, t.id);
      assert KnownOf(ids, c1) == Knowing(KnownOf(ids, c), e);
      match t {
        case ERef(_) => BareImage(g, ids, e, c, t.id, last, pe, pf);
        case EDef(_, marks, vals, parent) =>
          ReadsDefinition(t, c, last);
          hide ReadEnv;
          var (p, c2) := ReadParent(parent, c1);
          var (ws, c3) := ReadVals(vals, c2);
          if parent.Some? {
            EnvReadInOrder(g, ids, parent.value, g.envs[e].parent.value, c1, last, pe, pf);
          }
          ValsReadInOrder(g, ids, vals, Contents(g.envs[e]), c2, last, pe, pf);
          DescribedLength(g, ids, vals, Contents(g.envs[e]));
          AssembledImage(g, last, pe, pf, e, ws, p);
          NoNewImages(g, ids, c1, last, pe, pf);
          NewImagesOn(g, ids, c1, c2, c3, last, pe, pf);
      }
    }
  }

  lemma {:induction false} DescribedLength(g: Graph, ids: Ctx, ts: seq<TVal>, vs: seq<Val>)
    requires DescribesVals(g, ids, ts, vs)
    ensures |ts| == |vs|
    decreases ts
  {
    if ts != [] {
      DescribedLength(g, ids, ts[1..], vs[1..]);
    }
  }

  /** A bare environment is as good as a new one. */
  lemma BareImage(g: Graph, ids: Ctx, e: nat, c: Reader, i: nat, last: Reader, pe: map<nat, nat>, pf: map<nat, nat>)
    requires Bare(g, e) && i < |ids.envs| && ids.envs[i] == e && i !in c.envs
    requires Kept(c, Begun(c, i), last) && Maps(ids, last, pe, pf)
    ensures EnvImage(g, last, pe, pf, e)
  {
    assert i in Begun(c, i).envs && Begun(c, i).newEnvs[|c.newEnvs|] == BLANK;
    assert last.newEnvs[pe[e]] == BLANK;
  }

  lemma AssembledImage(g: Graph, last: Reader, pe: map<nat, nat>, pf: map<nat, nat>, e: nat, ws: seq<Val>,
      parent: Option<nat>)
    requires e in g.envs && NamesDistinct(g.envs[e].slots) && e in pe && pe[e] < |last.newEnvs|
             && |ws| == |Contents(g.envs[e])|
    requires last.newEnvs[pe[e]] == Assemble(MarksOf(Traces(g.envs[e].slots)), ws, parent)
    requires parent.Some? == g.envs[e].parent.Some?
    ensures EnvImage(g, last, pe, pf, e) <==>
            RenamedAll(pf, Contents(g.envs[e]), ws)
            && (parent.Some? ==> g.envs[e].parent.value in pe && parent.value == pe[g.envs[e].parent.value])
  {
    hide Traces, Contents, RenamedSlots, Renamed, RenamedAll;
    AssembleIs(pf, g.envs[e], ws, parent);
  }

  lemma {:induction false} ValReadInOrder(g: Graph, ids: Ctx, t: TVal, v: Val, c: Reader, last: Reader,
      pe: map<nat, nat>, pf: map<nat, nat>)
    requires AllNamesDistinct(g) && OneId(ids) && DescribesVal(g, ids, t, v) && Maps(ids, last, pe, pf)
    requires Kept(c, ReadVal(t, c).1, last) && OrderVal(g, ids, t, KnownOf(ids, c)).Some?
    ensures NewImages(g, ids, c, ReadVal(t, c).1, last, pe, pf)
    ensures KnownOf(ids, ReadVal(t, c).1) == OrderVal(g, ids, t, KnownOf(ids, c)).value
    ensures Renamed(pf, v, ReadVal(t, c).0)
    decreases t
  {
    hide OwnCells, ReadVals, ReadEnv, DescribesVals, OrderVals, OrderEnv, EnvImage, NamesOf, AllNamesDistinct;
    match t {
      case TUnset =>
      case TAtom(_) =>
      case TLink(_, _) =>
      case TMany(_, ts) => ValsReadInOrder(g, ids, ts, v.vs, c, last, pe, pf);
      case TFuncRef(id) => NamedOnce(c.funcs, ids.funcs, id);
      case TFuncDef(id, info, closure) =>
        NamedOnce(c.funcs, ids.funcs, id);
        if id !in c.funcs {
          NamedMore(c.funcs, ids.funcs, id, |c.newFuncs|);
          var c1 := BegunFunc(c, id, Building);
          var (a, c2) := ReadEnv(closure, c1);
          ReadsFunction(id, info, closure, c, last);
          EnvReadInOrder(g, ids, closure, g.funcs[v.f].closure, c1, last, pe, pf);
        }
    }
  }

  lemma {:induction false} ValsReadInOrder(g: Graph, ids: Ctx, ts: seq<TVal>, vs: seq<Val>, c: Reader, last: Reader,
      pe: map<nat, nat>, pf: map<nat, nat>)
    requires AllNamesDistinct(g) && OneId(ids) && DescribesVals(g, ids, ts, vs) && Maps(ids, last, pe, pf)
    requires Kept(c, ReadVals(ts, c).1, last) && OrderVals(g, ids, ts, KnownOf(ids, c)).Some?
    ensures NewImages(g, ids, c, ReadVals(ts, c).1, last, pe, pf)
    ensures KnownOf(ids, ReadVals(ts, c).1) == OrderVals(g, ids, ts, KnownOf(ids, c)).value
    ensures RenamedAll(pf, vs, ReadVals(ts, c).0)
    decreases ts
  {
    hide OwnCells, ReadVal, DescribesVal, OrderVal, EnvImage, FuncImage, NamesOf, AllNamesDistinct, Renamed, Further,
         Kept, Maps, NewImages;
    if ts != [] {
      var (w, c1) := ReadVal(ts[0], c);
      var (ws, c2) := ReadVals(ts[1..], c1);
      KeptParts(c, c1, c2, last);
      ValReadInOrder(g, ids, ts[0], vs[0], c, last, pe, pf);
      ValsReadInOrder(g, ids, ts[1..], vs[1..], c1, last, pe, pf);
      NewImagesOn(g, ids, c, c1, c2, last, pe, pf);
      assert forall k | 0 < k < |vs| :: vs[k] == vs[1..][k - 1] && ([w] + ws)[k] == ws[k - 1];
    } else {
      NoNewImages(g, ids, c, last, pe, pf);
    }
  }

  // ----- an image, so read in order -----

  lemma {:induction false} ImageEnvInOrder(g: Graph, ids: Ctx, t: TEnv, e: nat, c: Reader, last: Reader,
      pe: map<nat, nat>, pf: map<nat, nat>)
    requires AllNamesDistinct(g) && OneId(ids) && DescribesEnv(g, ids, t, e) && AllImages(g, last, pe, pf)
    requires Kept(c, ReadEnv(t, c).1, last) && e in pe && pe[e] == ReadEnv(t, c).0
    ensures OrderEnv(g, ids, t, KnownOf(ids, c)) == Some(KnownOf(ids, ReadEnv(t, c).1))
    decreases t
  {
    hide OwnCells, Contents, Traces, ReadVals, DescribesVals, OrderVals, Assemble, FuncImage, NamesOf, NamesDistinct,
         RenamedAll, MarksOf, Bare, Further, Kept, EnvImage;
    NamedOnce(c.envs, ids.envs, t.id);
    if t.id !in c.envs {
      NamedMore(c.envs, ids.envs, t.id, |c.newEnvs|);
      var c1 := Begun(c, t.id);
      assert KnownOf(ids, c1) == Knowing(KnownOf(ids, c), e);
      assert EnvImage(g, last, pe, pf, e);
      match t {
        case ERef(_) => ImageIsBare(g, e, c, t.id, last, pe, pf);
        case EDef(_, marks, vals, parent) =>
          ReadsDefinition(t, c, last);
          hide ReadEnv, AllImages;
          var (p, c2) := ReadParent(parent, c1);
          var (ws, c3) := ReadVals(vals, c2);
          DescribedLength(g, ids, vals, Contents(g.envs[e]));
          AssembledImage(g, last, pe, pf, e, ws, p);
          if parent.Some? {
            ImageEnvInOrder(g, ids, parent.value, g.envs[e].parent.value, c1, last, pe, pf);
          }
          ImagesInOrder(g, ids, vals, Contents(g.envs[e]), c2, last, pe, pf);
      }
    }
  }

  lemma NothingRenamed(pf: map<nat, nat>, ss: seq<Slot>)
    ensures RenamedSlots(pf, ss, BLANK.slots) ==> ss == []
  {
    if ss != [] {
      assert ss[0].name !in BLANK.slots;
    }
  }

  /** A new environment is an image only of a bare one. */
  lemma ImageIsBare(g: Graph, e: nat, c: Reader, i: nat, last: Reader, pe: map<nat, nat>, pf: map<nat, nat>)
    requires EnvImage(g, last, pe, pf, e) && pe[e] == |c.newEnvs| && Kept(c, Begun(c, i), last)
    ensures Bare(g, e)
  {
    assert Begun(c, i).newEnvs[|c.newEnvs|] == BLANK;
    assert last.newEnvs[pe[e]] == BLANK;
    var ss := Traces(g.envs[e].slots);
    NothingRenamed(pf, ss);
  }

  lemma {:induction false} ImageInOrder(g: Graph, ids: Ctx, t: TVal, v: Val, c: Reader, last: Reader,
      pe: map<nat, nat>, pf: map<nat, nat>)
    requires AllNamesDistinct(g) && OneId(ids) && DescribesVal(g, ids, t, v) && AllImages(g, last, pe, pf)
    requires Kept(c, ReadVal(t, c).1, last) && Renamed(pf, v, ReadVal(t, c).0)
    ensures OrderVal(g, ids, t, KnownOf(ids, c)) == Some(KnownOf(ids, ReadVal(t, c).1))
    decreases t
  {
    hide OwnCells, ReadVals, ReadEnv, DescribesVals, OrderVals, OrderEnv, EnvImage, NamesOf, AllNamesDistinct, Further;
    match t {
      case TUnset =>
      case TAtom(_) =>
      case TLink(_, _) =>
      case TMany(_, ts) => ImagesInOrder(g, ids, ts, v.vs, c, last, pe, pf);
      case TFuncRef(id) =>
        NamedOnce(c.funcs, ids.funcs, id);
        if id !in c.funcs {
          ThrowingIsNoImage(g, v.f, c, id, last, pe, pf);
        }
      case TFuncDef(id, info, closure) =>
        NamedOnce(c.funcs, ids.funcs, id);
        if id !in c.funcs {
          NamedMore(c.funcs, ids.funcs, id, |c.newFuncs|);
          var c1 := BegunFunc(c, id, Building);
          var (a, c2) := ReadEnv(closure, c1);
          ReadsFunction(id, info, closure, c, last);
          assert FuncImage(g, last, pe, pf, v.f);
          ImageEnvInOrder(g, ids, closure, g.funcs[v.f].closure, c1, last, pe, pf);
        }
    }
  }

  lemma ThrowingIsNoImage(g: Graph, f: nat, c: Reader, id: nat, last: Reader, pe: map<nat, nat>, pf: map<nat, nat>)
    requires Kept(c, BegunFunc(c, id, Throwing), last) && f in pf && pf[f] == |c.newFuncs|
    ensures !FuncImage(g, last, pe, pf, f)
  {
    assert BegunFunc(c, id, Throwing).newFuncs[|c.newFuncs|] == Throwing;
  }

  lemma {:induction false} ImagesInOrder(g: Graph, ids: Ctx, ts: seq<TVal>, vs: seq<Val>, c: Reader, last: Reader,
      pe: map<nat, nat>, pf: map<nat, nat>)
    requires AllNamesDistinct(g) && OneId(ids) && DescribesVals(g, ids, ts, vs) && AllImages(g, last, pe, pf)
    requires Kept(c, ReadVals(ts, c).1, last) && RenamedAll(pf, vs, ReadVals(ts, c).0)
    ensures OrderVals(g, ids, ts, KnownOf(ids, c)) == Some(KnownOf(ids, ReadVals(ts, c).1))
    decreases ts
  {
    hide OwnCells, ReadVal, DescribesVal, OrderVal, AllImages, NamesOf, AllNamesDistinct, Renamed, Further, Kept;
    if ts != [] {
      var (w, c1) := ReadVal(ts[0], c);
      var (ws, c2) := ReadVals(ts[1..], c1);
      KeptParts(c, c1, c2, last);
      assert ([w] + ws)[0] == w && forall k | 0 <= k < |ws| :: ([w] + ws)[k + 1] == ws[k];
      assert forall k | 0 <= k < |vs[1..]| :: vs[1..][k] == vs[k + 1];
      ImageInOrder(g, ids, ts[0], vs[0], c, last, pe, pf);
      assert RenamedAll(pf, vs[1..], ws);
      ImagesInOrder(g, ids, ts[1..], vs[1..], c1, last, pe, pf);
    }
  }
}
