/** Which cyclic graphs of closures survive serialize and unserialize. */
module ClosureRoundTrip {
  import opened Common
  import opened ClosureGraph
  import opened ClosureWriter
  import opened ClosureOrder
  import opened ClosureReader

  const NEW_READER := Reader(map[], map[], [], [])

  // ----- where aliases lead -----

  ghost predicate FindsWithin(c: Reader, a: nat, name: string, b: nat, depth: nat)
    decreases depth
  {
    && a < |c.newEnvs|
    && if name in c.newEnvs[a].slots then b == a
       else depth > 0 && c.newEnvs[a].parent.Some? && FindsWithin(c, c.newEnvs[a].parent.value, name, b, depth - 1)
  }

  /** Looking the name up from a new environment upwards finds it in b. */
  ghost predicate Finds(c: Reader, a: nat, name: string, b: nat) {
    exists depth :: FindsWithin(c, a, name, b, depth)
  }

  /** Where an alias in e is looked up. */
  function Home(e: nat, env: Option<nat>): nat {
    if env.Some? then env.value else e
  }

  /** The alias of the new environment leads to the image of what that of e leads to. */
  ghost predicate AliasImage(g: Graph, c: Reader, pe: map<nat, nat>, e: nat, target: string, env: Option<nat>) {
    && e in pe && Home(e, env) in g.envs
    && match Resolve(g, Home(e, env), target)
       case None => forall b :: !Finds(c, pe[e], target, b)
       case Some(o) => o in pe && Finds(c, pe[e], target, pe[o])
  }

  ghost predicate AliasImages(g: Graph, c: Reader, pe: map<nat, nat>) {
    forall e, k | e in pe && e in g.envs && 0 <= k < |g.envs[e].slots| && g.envs[e].slots[k].val.Link? ::
      AliasImage(g, c, pe, e, g.envs[e].slots[k].val.target, g.envs[e].slots[k].val.env)
  }

  ghost predicate Injective(m: map<nat, nat>) {
    forall x, y :: x in m && y in m && m[x] == m[y] ==> x == y
  }

  /** The environments and functions in the maps correspond one to one, with everything they hold or lead to. */
  ghost predicate Isomorphic(g: Graph, c: Reader, pe: map<nat, nat>, pf: map<nat, nat>) {
    Injective(pe) && Injective(pf) && AllImages(g, c, pe, pf) && AliasImages(g, c, pe)
  }

  // ----- the condition on aliases -----

  /** Where the name is found among the entries that are written. */
  function ResolveWritten(g: Graph, e: nat, name: string): (o: Option<nat>)
    requires e in g.envs
    decreases e
  {
    if HasName(Traces(g.envs[e].slots), name) then Some(e)
    else if g.envs[e].parent.None? || g.envs[e].parent.value !in g.envs || g.envs[e].parent.value >= e then None
    else ResolveWritten(g, g.envs[e].parent.value, name)
  }

  /** Some way leads from the value to the environment. */
  ghost predicate Reachable(g: Graph, v: Val, e: nat) {
    exists z :: Touches(g, v, z) && Reaches(g, z, e, {})
  }

  /** The alias leads to where its target is found from the environment that holds the alias. */
  ghost predicate AliasKept(g: Graph, e: nat, target: string, env: Option<nat>)
    requires e in g.envs
  {
    Home(e, env) in g.envs && ResolveWritten(g, e, target) == Resolve(g, Home(e, env), target)
  }

  ghost predicate AliasesKept(g: Graph, v: Val) {
    forall e, k | e in g.envs && Reachable(g, v, e) && 0 <= k < |g.envs[e].slots| && g.envs[e].slots[k].val.Link? ::
      AliasKept(g, e, g.envs[e].slots[k].val.target, g.envs[e].slots[k].val.env)
  }

  /**
   * What is first met inside an environment's values is not reachable from its parent, and
   * every alias leads where its target is found from the environment that holds it.
   */
  ghost predicate Survives(g: Graph, v: Val)
    requires Closed(g) && ValOk(g, v) && Storable(v)
  {
    ApartVal(g, 0, v, {}, NO_IDS) && AliasesKept(g, v)
  }

  // ----- looking up in images -----

  lemma {:induction false} FindsOne(c: Reader, a: nat, name: string, b: nat, d: nat, b': nat, d': nat)
    requires FindsWithin(c, a, name, b, d) && FindsWithin(c, a, name, b', d')
    ensures b == b'
    decreases d
  {
    if name !in c.newEnvs[a].slots {
      FindsOne(c, c.newEnvs[a].parent.value, name, b, d - 1, b', d' - 1);
    }
  }

  lemma ImageNames(g: Graph, c: Reader, pe: map<nat, nat>, pf: map<nat, nat>, e: nat, name: string)
    requires EnvImage(g, c, pe, pf, e)
    ensures HasName(Traces(g.envs[e].slots), name) <==> name in c.newEnvs[pe[e]].slots
  {
    hide Traces, RenamedSlot;
  }

  /** Looking a name up in the image finds the image of what is found. */
  lemma {:induction false} FindsImage(g: Graph, c: Reader, pe: map<nat, nat>, pf: map<nat, nat>, e: nat, name: string)
    requires Closed(g) && AllImages(g, c, pe, pf) && e in pe
    ensures e in g.envs
    ensures ResolveWritten(g, e, name).Some? ==>
              ResolveWritten(g, e, name).value in pe && Finds(c, pe[e], name, pe[ResolveWritten(g, e, name).value])
    ensures ResolveWritten(g, e, name).None? ==> forall b :: !Finds(c, pe[e], name, b)
    decreases e
  {
    hide Traces, HasName, RenamedSlots, Renamed, FuncImage;
    assert EnvImage(g, c, pe, pf, e);
    ImageNames(g, c, pe, pf, e, name);
    var n := c.newEnvs[pe[e]];
    if name in n.slots {
      assert FindsWithin(c, pe[e], name, pe[e], 0);
    } else if n.parent.Some? {
      var p := g.envs[e].parent.value;
      FindsImage(g, c, pe, pf, p, name);
      if ResolveWritten(g, p, name).Some? {
        var b := pe[ResolveWritten(g, p, name).value];
        var d: nat :| FindsWithin(c, pe[p], name, b, d);
        assert FindsWithin(c, pe[e], name, b, d + 1);
      }
      forall b: nat, d: nat | FindsWithin(c, pe[e], name, b, d) ensures Finds(c, pe[p], name, b) {
        assert FindsWithin(c, pe[p], name, b, d - 1);
      }
    }
  }

  /** Among images, an alias is one, too, exactly if it is kept. */
  lemma AliasImageIffKept(g: Graph, c: Reader, pe: map<nat, nat>, pf: map<nat, nat>, e: nat, target: string,
      env: Option<nat>)
    requires Closed(g) && AllImages(g, c, pe, pf) && Injective(pe) && e in pe && Home(e, env) in g.envs
    ensures e in g.envs && (AliasImage(g, c, pe, e, target, env) <==> AliasKept(g, e, target, env))
  {
    hide AllImages, Closed, Resolve, FindsWithin;
    FindsImage(g, c, pe, pf, e, target);
    var r, s := ResolveWritten(g, e, target), Resolve(g, Home(e, env), target);
    if r.Some? && s.Some? && s.value in pe && Finds(c, pe[e], target, pe[s.value]) {
      var d: nat :| FindsWithin(c, pe[e], target, pe[r.value], d);
      var d': nat :| FindsWithin(c, pe[e], target, pe[s.value], d');
      FindsOne(c, pe[e], target, pe[r.value], d, pe[s.value], d');
    }
  }

  // ----- images of what is reachable -----

  lemma {:induction false} RenamedTouches(g: Graph, c: Reader, pe: map<nat, nat>, pf: map<nat, nat>, v: Val, w: Val,
      z: nat)
    requires AllImages(g, c, pe, pf) && Renamed(pf, v, w) && Touches(g, v, z)
    ensures z in pe
    decreases v
  {
    match v {
      case Fn(f) => assert FuncImage(g, c, pe, pf, f);
      case Many(_, vs) =>
        var i :| 0 <= i < |vs| && Touches(g, vs[i], z);
        RenamedTouches(g, c, pe, pf, vs[i], w.vs[i], z);
    }
  }

  /** With an environment, those that it leads to have images. */
  lemma ImageLeads(g: Graph, c: Reader, pe: map<nat, nat>, pf: map<nat, nat>, e: nat, z: nat)
    requires AllImages(g, c, pe, pf) && e in pe && LeadsTo(g, e, z)
    ensures z in pe
  {
    hide Traces, Touches, Renamed;
    assert EnvImage(g, c, pe, pf, e);
    var n, m := g.envs[e], c.newEnvs[pe[e]];
    if n.parent != Some(z) {
      var i :| 0 <= i < |Contents(n)| && Touches(g, Contents(n)[i], z);
      var ss := Traces(n.slots);
      if i < |ss| {
        assert RenamedSlot(pf, ss[i], m.slots[ss[i].name]);
        RenamedTouches(g, c, pe, pf, ss[i].val, m.slots[ss[i].name].val, z);
      } else {
        RenamedTouches(g, c, pe, pf, n.schemas, m.schemas, z);
      }
    }
  }

  lemma ReachableHasImage(g: Graph, c: Reader, pe: map<nat, nat>, pf: map<nat, nat>, v: Val, w: Val, e: nat)
    requires AllImages(g, c, pe, pf) && Renamed(pf, v, w) && Reachable(g, v, e)
    ensures e in pe
  {
    hide AllImages, LeadsTo, Touches, Renamed;
    var z :| Touches(g, v, z) && Reaches(g, z, e, {});
    RenamedTouches(g, c, pe, pf, v, w, z);
    forall x, y | x in pe.Keys && LeadsTo(g, x, y) ensures y in pe.Keys {
      ImageLeads(g, c, pe, pf, x, y);
    }
    ReachesWithin(g, z, e, {}, pe.Keys);
  }

  // ----- the two maps -----

  ghost function Cell(m: map<nat, nat>, ids: seq<nat>, x: nat): (a: nat)
    requires exists i :: i in m && i < |ids| && ids[i] == x
    ensures exists i :: i in m && i < |ids| && ids[i] == x && m[i] == a
  {
    var i :| i in m && i < |ids| && ids[i] == x;
    m[i]
  }

  ghost function CellMap(m: map<nat, nat>, ids: seq<nat>): map<nat, nat> {
    map x | x in ids && (exists i :: i in m && i < |ids| && ids[i] == x) :: Cell(m, ids, x)
  }

  /** With one id each, the cell of an id is the image of what it stands for. */
  lemma CellMapIs(m: map<nat, nat>, ids: seq<nat>, x: nat, a: nat)
    requires Distinct(ids)
    ensures x in CellMap(m, ids) && CellMap(m, ids)[x] == a <==>
            exists i :: i in m && i < |ids| && ids[i] == x && m[i] == a
  {
    if i :| i in m && i < |ids| && ids[i] == x {
      assert x in CellMap(m, ids);
      var j :| j in m && j < |ids| && ids[j] == x && m[j] == CellMap(m, ids)[x];
      assert i == j;
    }
  }

  lemma CellMapInjective(m: map<nat, nat>, ids: seq<nat>)
    requires Distinct(ids) && forall i, j :: i in m && j in m && m[i] == m[j] ==> i == j
    ensures Injective(CellMap(m, ids))
  {
    var p := CellMap(m, ids);
    forall x, y | x in p && y in p && p[x] == p[y] ensures x == y {
      CellMapIs(m, ids, x, p[x]);
      CellMapIs(m, ids, y, p[y]);
      var i :| i in m && i < |ids| && ids[i] == x && m[i] == p[x];
      var j :| j in m && j < |ids| && ids[j] == y && m[j] == p[y];
    }
  }

  // ----- no more than what is reachable -----

  ghost function EnvsWithin(pe: map<nat, nat>, s: set<nat>): map<nat, nat> {
    map e | e in pe && e in s :: pe[e]
  }

  ghost function FuncsWithin(g: Graph, pf: map<nat, nat>, s: set<nat>): map<nat, nat> {
    map f | f in pf && f in g.funcs && g.funcs[f].closure in s :: pf[f]
  }

  lemma {:induction false} RenamedWithin(g: Graph, pf: map<nat, nat>, s: set<nat>, v: Val, w: Val)
    requires Renamed(pf, v, w) && ValOk(g, v) && forall z :: Touches(g, v, z) ==> z in s
    ensures Renamed(FuncsWithin(g, pf, s), v, w)
    decreases v
  {
    match v {
      case Unset =>
      case Atom(_) =>
      case Link(_, _) =>
      case Fn(f) => assert Touches(g, v, g.funcs[f].closure);
      case Many(_, vs) =>
        forall k | 0 <= k < |vs| ensures Renamed(FuncsWithin(g, pf, s), vs[k], w.vs[k]) {
          assert forall z :: Touches(g, vs[k], z) ==> Touches(g, v, z);
          RenamedWithin(g, pf, s, vs[k], w.vs[k]);
        }
    }
  }

  lemma EnvImageWithin(g: Graph, c: Reader, pe: map<nat, nat>, pf: map<nat, nat>, s: set<nat>, e: nat)
    requires Closed(g) && EnvImage(g, c, pe, pf, e) && e in s && forall z :: LeadsTo(g, e, z) ==> z in s
    ensures EnvImage(g, c, EnvsWithin(pe, s), FuncsWithin(g, pf, s), e)
  {
    var n, m, vs := g.envs[e], c.newEnvs[pe[e]], Contents(g.envs[e]);
    var ss := Traces(n.slots);
    ContentsOk(g, e);
    assert forall i, z | 0 <= i < |vs| && Touches(g, vs[i], z) :: LeadsTo(g, e, z);
    hide Traces, Touches, ValOk, LeadsTo, Renamed, HasName, FuncsWithin, Closed;
    forall k | 0 <= k < |ss| ensures RenamedSlot(FuncsWithin(g, pf, s), ss[k], m.slots[ss[k].name]) {
      assert vs[k] == ss[k].val && RenamedSlot(pf, ss[k], m.slots[ss[k].name]);
      RenamedWithin(g, pf, s, vs[k], m.slots[ss[k].name].val);
    }
    assert vs[|ss|] == n.schemas;
    RenamedWithin(g, pf, s, n.schemas, m.schemas);
    if n.parent.Some? {
      ParentIsNext(g, e);
    }
  }

  lemma ParentIsNext(g: Graph, e: nat)
    requires e in g.envs && g.envs[e].parent.Some?
    ensures LeadsTo(g, e, g.envs[e].parent.value)
  {
  }

  lemma AllImagesWithin(g: Graph, c: Reader, pe: map<nat, nat>, pf: map<nat, nat>, s: set<nat>)
    requires Closed(g) && AllImages(g, c, pe, pf) && forall y, z :: y in s && LeadsTo(g, y, z) ==> z in s
    ensures AllImages(g, c, EnvsWithin(pe, s), FuncsWithin(g, pf, s))
  {
    hide EnvImage, LeadsTo, Closed;
    forall e | e in EnvsWithin(pe, s) ensures EnvImage(g, c, EnvsWithin(pe, s), FuncsWithin(g, pf, s), e) {
      EnvImageWithin(g, c, pe, pf, s, e);
    }
  }

  ghost function ReachableSet(g: Graph, v: Val): set<nat> {
    set e | e in g.envs && Reachable(g, v, e)
  }

  lemma ReachableClosed(g: Graph, v: Val)
    requires Closed(g) && ValOk(g, v)
    ensures forall y, z :: y in ReachableSet(g, v) && LeadsTo(g, y, z) ==> z in ReachableSet(g, v)
    ensures forall z :: Touches(g, v, z) ==> z in ReachableSet(g, v)
  {
    hide LeadsTo, Touches, ValOk, Closed;
    forall y, z | y in ReachableSet(g, v) && LeadsTo(g, y, z) ensures z in ReachableSet(g, v) {
      var x :| Touches(g, v, x) && Reaches(g, x, y, {});
      ReachesAfter(g, x, y, z);
      LeadsInside(g, y, z);
    }
    forall z | Touches(g, v, z) ensures z in ReachableSet(g, v) {
      ReachesItself(g, z, {});
      TouchesInside(g, v, z);
    }
  }

  lemma ReachesAfter(g: Graph, a: nat, b: nat, x: nat)
    requires Reaches(g, a, b, {}) && LeadsTo(g, b, x)
    ensures Reaches(g, a, x, {})
  {
    hide LeadsTo;
    var p :| Walk(g, p, {}) && p[0] == a && p[|p| - 1] == b;
    var q := p + [x];
    assert Walk(g, q, {}) && q[0] == a && q[|q| - 1] == x;
  }

  lemma {:induction false} TouchesInside(g: Graph, v: Val, z: nat)
    requires Closed(g) && Touches(g, v, z)
    ensures z in g.envs
    decreases v
  {
    if v.Many? {
      var i :| 0 <= i < |v.vs| && Touches(g, v.vs[i], z);
      TouchesInside(g, v.vs[i], z);
    }
  }

  lemma LeadsInside(g: Graph, y: nat, z: nat)
    requires Closed(g) && LeadsTo(g, y, z)
    ensures z in g.envs
  {
    hide Touches, Contents;
    if g.envs[y].parent != Some(z) {
      var i :| 0 <= i < |Contents(g.envs[y])| && Touches(g, Contents(g.envs[y])[i], z);
      TouchesInside(g, Contents(g.envs[y])[i], z);
    }
  }

  // ----- the round trip -----

  /** The text, the ids in it, and what is read back. */
  ghost function Text(g: Graph, v: Val): (TVal, Ctx)
    requires Closed(g) && ValOk(g, v) && Storable(v)
  {
    WriteVal(g, 0, v, {}, NO_IDS)
  }

  ghost function Back(g: Graph, v: Val): (Val, Reader)
    requires Closed(g) && ValOk(g, v) && Storable(v)
  {
    ReadVal(Text(g, v).0, NEW_READER)
  }

  lemma TextIs(g: Graph, v: Val)
    requires Closed(g) && ValOk(g, v) && Storable(v)
    ensures var (t, ids) := Text(g, v);
            DescribesVal(g, ids, t, v) && OneId(ids) && OwnCells(Back(g, v).1)
    ensures KnownOf(Text(g, v).1, NEW_READER) == NOTHING && Kept(NEW_READER, Back(g, v).1, Back(g, v).1)
  {
    hide DescribesVal, ReadVal, WriteVal;
    WrittenVal(g, 0, v, {}, NO_IDS, Text(g, v).1);
    assert OneId(NO_IDS) && OwnCells(NEW_READER);
  }

  /** What is read in order is an image of everything reachable. */
  lemma InOrderIsImage(g: Graph, v: Val) returns (pe: map<nat, nat>, pf: map<nat, nat>)
    requires Closed(g) && AllNamesDistinct(g) && ValOk(g, v) && Storable(v)
    requires OrderVal(g, Text(g, v).1, Text(g, v).0, NOTHING).Some?
    ensures AllImages(g, Back(g, v).1, pe, pf) && Renamed(pf, v, Back(g, v).0) && Injective(pe) && Injective(pf)
    ensures forall e :: e in pe ==> Reachable(g, v, e)
  {
    hide DescribesVal, ReadVal, WriteVal, OrderVal, Renamed, EnvImage, FuncImage, AllNamesDistinct, Closed, ValOk,
         Touches, LeadsTo, Reachable, KnownOf, Kept, OwnCells, OneId;
    var (t, ids) := Text(g, v);
    var (w, c) := Back(g, v);
    TextIs(g, v);
    var me, mf := CellMap(c.envs, ids.envs), CellMap(c.funcs, ids.funcs);
    MapsOfCells(ids, c);
    ValReadInOrder(g, ids, t, v, NEW_READER, c, me, mf);
    ImagesOfCells(g, ids, c);
    var s := ReachableSet(g, v);
    ReachableClosed(g, v);
    AllImagesWithin(g, c, me, mf, s);
    RenamedWithin(g, mf, s, v, w);
    pe, pf := EnvsWithin(me, s), FuncsWithin(g, mf, s);
  }

  lemma MapsOfCells(ids: Ctx, c: Reader)
    requires OneId(ids) && OwnCells(c)
    ensures Maps(ids, c, CellMap(c.envs, ids.envs), CellMap(c.funcs, ids.funcs))
    ensures Injective(CellMap(c.envs, ids.envs)) && Injective(CellMap(c.funcs, ids.funcs))
  {
    hide CellMap;
    CellMapInjective(c.envs, ids.envs);
    CellMapInjective(c.funcs, ids.funcs);
    forall i | i in c.envs && i < |ids.envs|
      ensures ids.envs[i] in CellMap(c.envs, ids.envs) && CellMap(c.envs, ids.envs)[ids.envs[i]] == c.envs[i] {
      CellMapIs(c.envs, ids.envs, ids.envs[i], c.envs[i]);
    }
    forall i | i in c.funcs && i < |ids.funcs|
      ensures ids.funcs[i] in CellMap(c.funcs, ids.funcs) && CellMap(c.funcs, ids.funcs)[ids.funcs[i]] == c.funcs[i] {
      CellMapIs(c.funcs, ids.funcs, ids.funcs[i], c.funcs[i]);
    }
  }

  lemma ImagesOfCells(g: Graph, ids: Ctx, c: Reader)
    requires NewImages(g, ids, NEW_READER, c, c, CellMap(c.envs, ids.envs), CellMap(c.funcs, ids.funcs))
    ensures AllImages(g, c, CellMap(c.envs, ids.envs), CellMap(c.funcs, ids.funcs))
  {
    hide EnvImage, FuncImage;
  }

  /** An image was read in order. */
  lemma ImageIsInOrder(g: Graph, v: Val, pe: map<nat, nat>, pf: map<nat, nat>)
    requires Closed(g) && AllNamesDistinct(g) && ValOk(g, v) && Storable(v)
    requires AllImages(g, Back(g, v).1, pe, pf) && Renamed(pf, v, Back(g, v).0)
    ensures OrderVal(g, Text(g, v).1, Text(g, v).0, NOTHING).Some?
  {
    hide DescribesVal, ReadVal, WriteVal, OrderVal, Renamed, AllImages, AllNamesDistinct, Closed, ValOk, KnownOf,
         Kept, OwnCells, OneId;
    var (t, ids) := Text(g, v);
    TextIs(g, v);
    ImageInOrder(g, ids, t, v, NEW_READER, Back(g, v).1, pe, pf);
  }

  /**
   * Serializing any value of a cyclic graph and reading it back gives an isomorphic graph if
   * and only if nothing that is first met inside an environment's values can be reached from
   * its parent, and every alias leads where its target is found from its own environment.
   */
  lemma GraphRoundTrip(g: Graph, v: Val)
    requires Closed(g) && AllNamesDistinct(g) && ValOk(g, v) && Storable(v)
    ensures (exists pe, pf :: Isomorphic(g, Back(g, v).1, pe, pf) && Renamed(pf, v, Back(g, v).0)) <==> Survives(g, v)
  {
    hide Back, ApartVal, OrderVal, AllImages, Renamed, AllNamesDistinct, Closed, ValOk, Reachable, AliasImage,
         AliasKept, Injective;
    var (w, c) := Back(g, v);
    OrderedIffApart(g, v);
    if Survives(g, v) {
      var pe, pf := InOrderIsImage(g, v);
      AliasesImagesIfKept(g, v, c, pe, pf);
      assert Isomorphic(g, c, pe, pf);
    }
    if pe, pf :| Isomorphic(g, c, pe, pf) && Renamed(pf, v, w) {
      ImageIsInOrder(g, v, pe, pf);
      AliasesKeptIfImages(g, v, w, c, pe, pf);
    }
  }

  lemma AliasesImagesIfKept(g: Graph, v: Val, c: Reader, pe: map<nat, nat>, pf: map<nat, nat>)
    requires Closed(g) && AllImages(g, c, pe, pf) && Injective(pe) && AliasesKept(g, v)
    requires forall e :: e in pe ==> Reachable(g, v, e)
    ensures AliasImages(g, c, pe)
  {
    hide AliasImage, Reachable, AllImages, Injective, Closed, Resolve, ResolveWritten;
    forall e, k | e in pe && e in g.envs && 0 <= k < |g.envs[e].slots| && g.envs[e].slots[k].val.Link?
      ensures AliasImage(g, c, pe, e, g.envs[e].slots[k].val.target, g.envs[e].slots[k].val.env) {
      AliasImageIffKept(g, c, pe, pf, e, g.envs[e].slots[k].val.target, g.envs[e].slots[k].val.env);
    }
  }

  lemma AliasesKeptIfImages(g: Graph, v: Val, w: Val, c: Reader, pe: map<nat, nat>, pf: map<nat, nat>)
    requires Closed(g) && AllImages(g, c, pe, pf) && Injective(pe) && AliasImages(g, c, pe) && Renamed(pf, v, w)
    ensures AliasesKept(g, v)
  {
    hide AliasKept, Reachable, AllImages, Injective, Closed, Resolve, Renamed, Finds;
    forall e, k | e in g.envs && Reachable(g, v, e) && 0 <= k < |g.envs[e].slots| && g.envs[e].slots[k].val.Link?
      ensures AliasKept(g, e, g.envs[e].slots[k].val.target, g.envs[e].slots[k].val.env) {
      ReachableHasImage(g, c, pe, pf, v, w, e);
      AliasImageIffKept(g, c, pe, pf, e, g.envs[e].slots[k].val.target, g.envs[e].slots[k].val.env);
    }
  }

  // ----- graphs that do not survive, and one that does -----

  /** An alias is lost if its own environment has an entry with the name of its target, but it leads elsewhere. */
  lemma ShadowedAliasIsLost(g: Graph, v: Val, e: nat, k: nat)
    requires Closed(g) && AllNamesDistinct(g) && ValOk(g, v) && Storable(v) && e in g.envs && Reachable(g, v, e)
    requires k < |g.envs[e].slots| && g.envs[e].slots[k].val.Link?
    requires var l := g.envs[e].slots[k].val;
             && HasName(Traces(g.envs[e].slots), l.target)
             && (Home(e, l.env) in g.envs ==> Resolve(g, Home(e, l.env), l.target) != Some(e))
    ensures !exists pe, pf :: Isomorphic(g, Back(g, v).1, pe, pf) && Renamed(pf, v, Back(g, v).0)
  {
    hide Back, ApartVal, Isomorphic, Renamed, Reachable, Closed, Traces;
    GraphRoundTrip(g, v);
    assert !AliasKept(g, e, g.envs[e].slots[k].val.target, g.envs[e].slots[k].val.env);
  }

  function Plain(name: string, val: Val): Slot {
    Slot(name, val, 1, false, false)
  }

  function Node(slots: seq<Slot>, parent: Option<nat>): EnvNode {
    EnvNode(slots, NO_SCHEMAS, parent)
  }

  /** What is written of an environment with one entry. */
  function TextOf(id: nat, name: string, val: TVal, parent: Option<TEnv>): TEnv {
    EDef(id, [Mark(name, 1, false, false)], [val, NO_SCHEMAS_TEXT], parent)
  }

  lemma OneEntry(g: Graph, e: nat, name: string, val: Val, open: set<nat>, c: Ctx)
    requires Closed(g) && e in g.envs && g.envs[e].slots == [Plain(name, val)] && g.envs[e].schemas == NO_SCHEMAS
    requires ValOk(g, val)
    ensures Contents(g.envs[e]) == [val, NO_SCHEMAS]
    ensures AllOk(g, e, [val, NO_SCHEMAS])
    ensures MarksOf(Traces(g.envs[e].slots)) == [Mark(name, 1, false, false)]
    ensures WriteVals(g, e, [val, NO_SCHEMAS], open, c) ==
            ([WriteVal(g, e, val, open, c).0, NO_SCHEMAS_TEXT], WriteVal(g, e, val, open, c).1)
    ensures ApartVals(g, e, [val, NO_SCHEMAS], open, c) == ApartVal(g, e, val, open, c)
  {
    var slots, vs := g.envs[e].slots, [val, NO_SCHEMAS];
    assert slots[1..] == [] && Traces(slots) == slots;
    assert vs[1..] == [NO_SCHEMAS] && vs[1..][1..] == [];
    var (t, c1) := WriteVal(g, e, val, open, c);
    assert WriteVals(g, e, [], open, c1) == ([], c1);
    assert WriteVal(g, e, NO_SCHEMAS, open, c1) == (NO_SCHEMAS_TEXT, c1);
    assert WriteVals(g, e, vs[1..], open, c1) == ([NO_SCHEMAS_TEXT] + [], c1);
    assert [t] + ([NO_SCHEMAS_TEXT] + []) == [t, NO_SCHEMAS_TEXT];
    assert ApartVals(g, e, [], open, c1) && ApartVal(g, e, NO_SCHEMAS, open, c1);
  }

  /** A variable of the child is an alias of a variable of its parent, and a function closes over the child. */
  const FAMILY := Graph(
    map[0 := Node([Plain("x", Atom(7))], None), 1 := Node([Plain("y", Link("x", Some(0)))], Some(0))],
    map[0 := FuncNode(0, 1)])

  const FAMILY_TEXT :=
    TFuncDef(0, 0, TextOf(0, "y", TLink("x", TextOf(1, "x", TAtom(7), None)), Some(ERef(1))))

  lemma FamilyClosed()
    ensures Closed(FAMILY)
  {
  }

  lemma FamilyParent()
    ensures Closed(FAMILY)
            && WriteEnv(FAMILY, 0, {0}, Ctx([1], [0])) == (TextOf(1, "x", TAtom(7), None), Ctx([1, 0], [0]))
  {
    FamilyClosed();
    hide Closed, ApartVals, ApartVal, Unmet, Grows, WriteEnv, WriteVals, Contents, AllOk;
    var c := Ctx([1], [0]);
    assert [1] + [0] == [1, 0];
    OneEntry(FAMILY, 0, "x", Atom(7), {0}, Ctx([1, 0], [0]));
    Enters(FAMILY, 0, {0}, c);
  }

  lemma FamilyAlias()
    ensures Closed(FAMILY)
    ensures WriteVal(FAMILY, 1, Link("x", Some(0)), {0}, Ctx([1], [0])) ==
            (TLink("x", TextOf(1, "x", TAtom(7), None)), Ctx([1, 0], [0]))
  {
    FamilyParent();
    assert Owner(FAMILY, 1, "x") == 0 by {
      assert !HasName(FAMILY.envs[1].slots, "x") by {
        assert "y"[0] != "x"[0];
      }
      assert FAMILY.envs[0].slots[0].name == "x";
    }
  }

  lemma FamilyChild()
    ensures Closed(FAMILY) && WriteEnv(FAMILY, 1, {0}, Ctx([], [0])) == (FAMILY_TEXT.closure, Ctx([1, 0], [0]))
  {
    var c1, c2, c3 := Ctx([], [0]), Ctx([1], [0]), Ctx([1, 0], [0]);
    FamilyAlias();
    hide Closed, ApartVals, ApartVal, ApartEnv, Unmet, Grows, FamilyMet, Traces, Contents, AllOk, Owner, WriteVals;
    assert [] + [1] == [1];
    assert IndexOf([1, 0], 0) == 1 by {
      assert [1, 0][1..] == [0];
    }
    OneEntry(FAMILY, 1, "y", Link("x", Some(0)), {0}, c2);
    Enters(FAMILY, 1, {0}, c1);
    assert WriteEnv(FAMILY, 0, {0}, c3) == (ERef(1), c3);
  }

  /** The definition of the parent is put where it is never read. */
  lemma FamilyWritten()
    ensures Closed(FAMILY) && Text(FAMILY, Fn(0)) == (FAMILY_TEXT, Ctx([1, 0], [0]))
  {
    FamilyChild();
    hide Closed, WriteEnv;
    assert Meet([], 0) == [0] && {} + {0} == {0};
  }

  /** What is read of an environment with one entry. */
  lemma OneEntryRead(name: string, val: TVal, c: Reader, parent: Option<nat>)
    ensures var (w, c1) := ReadVal(val, c);
            && ReadVals([val, NO_SCHEMAS_TEXT], c) == ([w, NO_SCHEMAS], c1)
            && Assemble([Mark(name, 1, false, false)], [w, NO_SCHEMAS], parent)
               == NewEnv(map[name := Info(w, 1, false, false)], NO_SCHEMAS, parent)
  {
    hide Further, OwnCells;
    var ts, marks := [val, NO_SCHEMAS_TEXT], [Mark(name, 1, false, false)];
    var (w, c1) := ReadVal(val, c);
    assert ts[1..] == [NO_SCHEMAS_TEXT] && ts[1..][1..] == [];
    assert ReadVals([], c1) == ([], c1);
    assert ReadVal(NO_SCHEMAS_TEXT, c1) == (NO_SCHEMAS, c1);
    assert ReadVals(ts[1..], c1) == ([NO_SCHEMAS] + [], c1);
    assert [w] + ([NO_SCHEMAS] + []) == [w, NO_SCHEMAS];
    var ws := [w, NO_SCHEMAS];
    assert marks[..0] == [] && Entries([], ws[..0]) == map[];
    assert Entries(marks, ws) == map[name := Info(w, 1, false, false)];
  }

  /** Read back, the parent is empty: the value of x is lost, and y leads nowhere. */
  lemma ParentIsLost()
    ensures var (w, c) := ReadVal(FAMILY_TEXT, NEW_READER);
            && w == Fn(0) && c.newFuncs == [NewFunc(0, 0)]
            && c.newEnvs == [NewEnv(map["y" := Info(Link("x", None), 1, false, false)], NO_SCHEMAS, Some(1)), BLANK]
  {
    hide Further, OwnCells, ReadVals, Assemble;
    var child := FAMILY_TEXT.closure;
    var r1 := BegunFunc(NEW_READER, 0, Building);
    var r2 := Begun(r1, 0);
    var r3 := Begun(r2, 1);
    assert ReadEnv(ERef(1), r2) == (1, r3);
    assert r3.newEnvs == [BLANK, BLANK];
    OneEntryRead("y", TLink("x", TextOf(1, "x", TAtom(7), None)), r3, Some(1));
    var n := NewEnv(map["y" := Info(Link("x", None), 1, false, false)], NO_SCHEMAS, Some(1));
    assert r3.newEnvs[0 := n] == [n, BLANK];
    assert ReadEnv(child, r1) == (0, r3.(newEnvs := [n, BLANK]));
  }

  /** The parent is first met inside the values of the child. */
  lemma FamilyDoesNotSurvive()
    ensures Closed(FAMILY) && !Survives(FAMILY, Fn(0))
  {
    var c1, c2 := Ctx([], [0]), Ctx([1], [0]);
    FamilyAlias();
    FunctionApart(FAMILY, 0);
    OneEntry(FAMILY, 1, "y", Link("x", Some(0)), {0}, c2);
    assert [] + [1] == [1];
    ReachesItself(FAMILY, 0, Met(c2));
    assert !Bare(FAMILY, 0) by {
      assert Traces(FAMILY.envs[0].slots)[0].name == "x";
    }
    hide Bare, Reaches, WriteVal, ApartVal, Closed, Contents, Traces;
    assert !ParentApart(FAMILY, 0, c2, Ctx([1, 0], [0])) by {
      assert 0 in [1, 0];
    }
    Enters(FAMILY, 1, {0}, c1);
    assert !ApartEnv(FAMILY, 1, {0}, c1);
  }

  /** A pointer parameter x of a call that is bound to the x of the caller, and a closure over the call. */
  const CALL := Graph(
    map[0 := Node([Plain("x", Atom(7))], None), 1 := Node([Plain("x", Link("x", Some(0)))], Some(0))],
    map[0 := FuncNode(0, 1)])

  lemma CallClosed()
    ensures Closed(CALL)
  {
  }

  lemma CallCaller(c: Ctx)
    requires 0 !in c.envs
    ensures Closed(CALL) && ApartEnv(CALL, 0, {0}, c)
  {
    OneEntry(CALL, 0, "x", Atom(7), {0}, Entered(c, 0));
  }

  lemma CallIsApart()
    ensures Closed(CALL) && ApartVal(CALL, 0, Fn(0), {}, NO_IDS)
  {
    var c1, c2 := Ctx([], [0]), Ctx([1], [0]);
    CallCaller(c2);
    FunctionApart(CALL, 0);
    assert Entered(c1, 1) == c2 by {
      assert [] + [1] == [1];
    }
    assert Owner(CALL, 1, "x") == 1 by {
      assert CALL.envs[1].slots[0].name == "x";
    }
    assert WriteVal(CALL, 1, Link("x", Some(0)), {0}, c2).1 == c2 by {
      AlreadyMet(CALL, 1, {0}, c2);
    }
    OneEntry(CALL, 1, "x", Link("x", Some(0)), {0}, c2);
    ApartOneEntry(CALL, 1, "x", Link("x", Some(0)), {0}, c1);
  }

  lemma FunctionApart(g: Graph, f: nat)
    requires Closed(g) && f in g.funcs
    ensures ApartVal(g, 0, Fn(f), {}, NO_IDS) == ApartEnv(g, g.funcs[f].closure, {f}, Ctx([], [f]))
  {
    hide ApartEnv;
    assert Meet([], f) == [f] && {} + {f} == {f};
    assert Unmet(g, Ctx([], [f])) == Unmet(g, NO_IDS);
  }

  /** An environment with one entry is apart if its value is, and its parent is, from that value. */
  lemma ApartOneEntry(g: Graph, e: nat, name: string, val: Val, open: set<nat>, c: Ctx)
    requires Closed(g) && e in g.envs && g.envs[e].slots == [Plain(name, val)] && g.envs[e].schemas == NO_SCHEMAS
             && ValOk(g, val)
    requires ApartVal(g, e, val, open, Entered(c, e)) && g.envs[e].parent.Some?
    requires var c2 := WriteVal(g, e, val, open, Entered(c, e)).1;
             ParentApart(g, g.envs[e].parent.value, Entered(c, e), c2) && ApartEnv(g, g.envs[e].parent.value, open, c2)
    ensures ApartEnv(g, e, open, c)
  {
    hide ApartVal, ApartVals, WriteVal, WriteVals, ParentApart, Contents, Traces, Closed, Grows, FamilyMet;
    if e !in c.envs {
      OneEntry(g, e, name, val, open, Entered(c, e));
      MeetingGrows(g, c, e);
    }
  }

  lemma CallMisleads()
    ensures Closed(CALL) && AllNamesDistinct(CALL) && !Survives(CALL, Fn(0))
    ensures Reachable(CALL, Fn(0), 1)
  {
    CallClosed();
    hide ApartVal, Closed;
    assert CALL.envs[1].slots[0].name == "x" && CALL.envs[0].slots[0].name == "x";
    var slots := CALL.envs[1].slots;
    assert slots[1..] == [] && Traces(slots) == slots;
    ReachesItself(CALL, 1, {});
    assert Touches(CALL, Fn(0), 1);
    hide Reaches, Touches;
    assert !AliasKept(CALL, 1, "x", Some(0));
  }

  /** Everything is read back but where the parameter leads: it is now an alias of itself. */
  lemma PointerParameterIsLost()
    ensures Closed(CALL) && AllNamesDistinct(CALL) && !Survives(CALL, Fn(0))
    ensures var (w, c) := Back(CALL, Fn(0));
            exists pe, pf :: && AllImages(CALL, c, pe, pf) && Renamed(pf, Fn(0), w) && 1 in pe
                             && pe[1] < |c.newEnvs| && "x" in c.newEnvs[pe[1]].slots
                             && c.newEnvs[pe[1]].slots["x"].val == Link("x", None) && Finds(c, pe[1], "x", pe[1])
  {
    CallMisleads();
    CallIsApart();
    hide Back, ApartVal, OrderVal, AllNamesDistinct, Closed, Survives, Reachable;
    OrderedIffApart(CALL, Fn(0));
    var pe, pf := InOrderIsImage(CALL, Fn(0));
    var c := Back(CALL, Fn(0)).1;
    ReachableHasImage(CALL, c, pe, pf, Fn(0), Back(CALL, Fn(0)).0, 1);
    CallImage(c, pe, pf);
  }

  lemma CallImage(c: Reader, pe: map<nat, nat>, pf: map<nat, nat>)
    requires AllImages(CALL, c, pe, pf) && 1 in pe
    ensures pe[1] < |c.newEnvs| && "x" in c.newEnvs[pe[1]].slots
    ensures c.newEnvs[pe[1]].slots["x"].val == Link("x", None) && Finds(c, pe[1], "x", pe[1])
  {
    var slots := CALL.envs[1].slots;
    assert slots[1..] == [] && Traces(slots) == slots && slots[0].name == "x";
    assert EnvImage(CALL, c, pe, pf, 1);
    assert RenamedSlot(pf, slots[0], c.newEnvs[pe[1]].slots["x"]);
    assert FindsWithin(c, pe[1], "x", pe[1], 0);
  }

  /** A function of the child closes over the parent, which is a new environment. */
  const EMPTY_ROOT := Graph(
    map[0 := Node([], None), 1 := Node([Plain("h", Fn(1))], Some(0))],
    map[0 := FuncNode(0, 1), 1 := FuncNode(1, 0)])

  lemma EmptyRootBare()
    ensures Closed(EMPTY_ROOT) && Bare(EMPTY_ROOT, 0)
  {
  }

  lemma EmptyRootInner(c: Ctx)
    requires c == Ctx([1], [0])
    ensures Closed(EMPTY_ROOT) && Bare(EMPTY_ROOT, 0)
    ensures WriteVal(EMPTY_ROOT, 1, Fn(1), {0}, c).1.envs == [1, 0]
    ensures ApartVal(EMPTY_ROOT, 1, Fn(1), {0}, c)
  {
    hide Closed, Bare, Unmet, Grows, FamilyMet, Reaches, ParentApart, ApartVals, ApartEnv, WriteVals, WriteEnv;
    EmptyRootBare();
    var c1 := c.(funcs := Meet([0], 1));
    BareAlone(EMPTY_ROOT, 0, {0} + {1}, c1);
    BareApart(EMPTY_ROOT, 0, {0} + {1}, c1);
    assert [1] + [0] == [1, 0];
  }

  lemma EmptyRootIsApart()
    ensures Closed(EMPTY_ROOT) && ApartVal(EMPTY_ROOT, 0, Fn(0), {}, NO_IDS)
  {
    var c1, c2 := Ctx([], [0]), Ctx([1], [0]);
    EmptyRootInner(c2);
    FunctionApart(EMPTY_ROOT, 0);
    hide Bare, Closed, ApartVal, ApartEnv, WriteVal, Reaches, ValOk;
    assert Entered(c1, 1) == c2 by {
      assert [] + [1] == [1];
    }
    BareApart(EMPTY_ROOT, 0, {0}, WriteVal(EMPTY_ROOT, 1, Fn(1), {0}, c2).1);
    assert ValOk(EMPTY_ROOT, Fn(1)) by {
      FunctionOk(EMPTY_ROOT, 1);
    }
    ApartOneEntry(EMPTY_ROOT, 1, "h", Fn(1), {0}, c1);
  }

  lemma FunctionOk(g: Graph, f: nat)
    requires f in g.funcs
    ensures ValOk(g, Fn(f))
  {
  }

  /** The root is met inside the values of its child and read back as a new environment, which is what it is. */
  lemma EmptyRootSurvives()
    ensures Closed(EMPTY_ROOT) && Survives(EMPTY_ROOT, Fn(0))
  {
    EmptyRootIsApart();
    hide Reachable, ApartVal, Closed;
  }
}
