/**
 * Graphs of closures together with the data in them: what comes back as it was, and when
 * there is an error instead (src/builtins.c:2679-2876, 3454-3839).
 *
 * The whole text is parsed before anything is built, so data that nobody reads must be
 * legible, too; only the data that is read has to be portable.
 */
module ClosureData {
  import opened Common
  import JsonText
  import Serialize
  import SerializeRoundTrip
  import opened Shapes
  import opened ClosureGraph
  import opened ClosureWriter
  import opened ClosureOrder
  import opened ClosureMet
  import opened ClosureReader
  import opened ClosureRoundTrip

  /** The data that the atoms stand for. */
  type Meaning = int -> Serialize.Data

  // ----- what becomes of an item -----

  datatype Fate = Fails | Differs | Same

  /** The codes of types, of which 0 is the unknown one. */
  function Code(t: Serialize.DeclType): nat {
    match t
    case TUnknown => 0
    case TBool => 1
    case TInt => 2
    case TStr => 3
    case TTensor => 4
    case TMap => 5
  }

  const FUNC_CODE: nat := 6

  function TypeCode(datum: Meaning, k: Kind): nat {
    match k
    case DataKind(n) => Code(Serialize.TypeOf(datum(n)))
    case FuncKind => FUNC_CODE
    case ManyKind(frame) => if frame.Grid? then Code(Serialize.TTensor) else 0
    case NoKind => 0
  }

  /** The type all parts have, if they have one that is not a map. */
  function CommonCode(datum: Meaning, kinds: seq<Kind>): nat {
    if kinds == [] then 0
    else
      var last := TypeCode(datum, kinds[|kinds| - 1]);
      if |kinds| == 1 || CommonCode(datum, kinds[..|kinds| - 1]) == last then last else 0
  }

  function DatumFate(d: Serialize.Data): Fate {
    match SerializeRoundTrip.Back(d)
    case None => Fails
    case Some(e) => if e == d then Same else Differs
  }

  /** A key is an integer or a string. */
  function KeyFate(datum: Meaning, k: Kind): Fate {
    if !k.DataKind? then Fails
    else
      match SerializeRoundTrip.Back(datum(k.n))
      case None => Fails
      case Some(e) => if !Serialize.IsKey(e) then Fails else if e == datum(k.n) then Same else Differs
  }

  /** Keys and values alternate. */
  function KeysOf(kinds: seq<Kind>): seq<Kind> {
    if kinds == [] then [] else [kinds[0]] + KeysOf(kinds[if |kinds| == 1 then 1 else 2..])
  }

  function KeysFate(datum: Meaning, keys: seq<Kind>): Fate {
    if exists i | 0 <= i < |keys| :: KeyFate(datum, keys[i]) == Fails then Fails
    else if exists i | 0 <= i < |keys| :: KeyFate(datum, keys[i]) == Differs then Differs
    else Same
  }

  /** The shape is read with all its checks, the element type is found anew. */
  function GridFate(datum: Meaning, elem: nat, shape: seq<nat>, kinds: seq<Kind>): Fate {
    var dims := Serialize.Dims(Serialize.ToDims(shape), 1);
    if shape == [] || dims.None? || Product(dims.value) != |kinds| then Fails
    else if dims.value == shape && CommonCode(datum, kinds) == elem then Same
    else Differs
  }

  /**
   * Whether reading an item fails, and whether it comes back as it was if its parts do. The keys
   * of a map are distinct in memory; only if one of them does not come back as it was may entries
   * be merged.
   */
  function FateOf(datum: Meaning, x: Item): Fate {
    match x
    case Datum(n) => DatumFate(datum(n))
    case Framed(Grid(elem, shape), kinds) => GridFate(datum, elem, shape, kinds)
    case Framed(Dict, kinds) => KeysFate(datum, KeysOf(kinds))
    case Framed(Names(_), _) => Same
  }

  /**
   * Portable data; tensors with parts, at least one dimension and the type that is found anew;
   * maps with portable keys.
   */
  ghost predicate PortableItem(datum: Meaning, x: Item) {
    match x
    case Datum(n) => SerializeRoundTrip.Portable(datum(n))
    case Framed(Grid(elem, shape), kinds) => shape != [] && kinds != [] && elem == CommonCode(datum, kinds)
    case Framed(Dict, kinds) =>
      forall i | 0 <= i < |KeysOf(kinds)| ::
        && KeysOf(kinds)[i].DataKind?
        && Serialize.IsKey(datum(KeysOf(kinds)[i].n)) && SerializeRoundTrip.Portable(datum(KeysOf(kinds)[i].n))
    case Framed(Names(_), _) => true
  }

  /** What holds of every value in memory: sound data, shapes that count the parts. */
  predicate SoundItem(datum: Meaning, x: Item) {
    match x
    case Datum(n) => Serialize.Sound(datum(n))
    case Framed(Grid(_, shape), kinds) =>
      (forall k | 0 <= k < |shape| :: shape[k] < JsonText.EXACT) && Product(shape) == |kinds| < JsonText.EXACT
    case Framed(Dict, kinds) =>
      forall i | 0 <= i < |KeysOf(kinds)| && KeysOf(kinds)[i].DataKind? :: Serialize.Sound(datum(KeysOf(kinds)[i].n))
    case Framed(Names(_), _) => true
  }

  lemma SameIfPortable(datum: Meaning, x: Item)
    requires SoundItem(datum, x)
    ensures FateOf(datum, x) == Same <==> PortableItem(datum, x)
  {
    hide SerializeRoundTrip.Back, SerializeRoundTrip.Portable, Serialize.Sound;
    match x {
      case Datum(n) => SerializeRoundTrip.BackExactly(datum(n));
      case Framed(Grid(elem, shape), kinds) =>
        NonEmptyShape(shape);
        SerializeRoundTrip.DimsBack(shape, 1);
      case Framed(Dict, kinds) =>
        var keys := KeysOf(kinds);
        forall i | 0 <= i < |keys|
          ensures KeyFate(datum, keys[i]) == Same <==>
                  && keys[i].DataKind? && Serialize.IsKey(datum(keys[i].n))
                  && SerializeRoundTrip.Portable(datum(keys[i].n)) {
          if keys[i].DataKind? {
            SerializeRoundTrip.BackExactly(datum(keys[i].n));
          }
        }
      case Framed(Names(_), _) =>
    }
  }

  /** Writing the text of the datum ends, and the text is parsed. */
  predicate Legible(d: Serialize.Data) {
    JsonText.Print(Serialize.ToJson(d)).Some? && JsonText.Receive(Serialize.ToJson(d)).Some?
  }

  // ----- reading with data that may fail -----

  /** deser_env, with the error of the first datum that cannot be read. */
  function EnvWithData(datum: Meaning, t: TEnv, c: Reader): Option<(nat, Reader)>
    decreases t
  {
    if t.id in c.envs then Some((c.envs[t.id], c))
    else
      var a := |c.newEnvs|;
      var c1 := Begun(c, t.id);
      match t
      case ERef(_) => Some((a, c1))
      case EDef(_, marks, vals, parent) =>
        var p := if parent.None? then Some((None, c1))
                 else match EnvWithData(datum, parent.value, c1)
                      case None => None
                      case Some(r) => Some((Some(r.0), r.1));
        if p.None? then None else
          match ValsWithData(datum, vals, p.value.1)
          case None => None
          case Some(r) =>
            var e := Assemble(marks, r.0, p.value.0);
            Some((a, r.1.(newEnvs := if a < |r.1.newEnvs| then r.1.newEnvs[a := e] else r.1.newEnvs)))
  }

  /** deser_val */
  function ValWithData(datum: Meaning, t: TVal, c: Reader): Option<(Val, Reader)>
    decreases t
  {
    match t
    case TAtom(n) => if FateOf(datum, Datum(n)) == Fails then None else Some((Atom(n), c))
    case TMany(frame, ts) =>
      (match ValsWithData(datum, ts, c)
       case None => None
       case Some(r) =>
         if FateOf(datum, Framed(frame, TextKinds(ts))) == Fails then None else Some((Many(frame, r.0), r.1)))
    case TFuncDef(id, info, closure) =>
      if id in c.funcs then Some((Fn(c.funcs[id]), c))
      else
        var a := |c.newFuncs|;
        (match EnvWithData(datum, closure, BegunFunc(c, id, Building))
         case None => None
         case Some(r) =>
           var f := NewFunc(info, r.0);
           Some((Fn(a), r.1.(newFuncs := if a < |r.1.newFuncs| then r.1.newFuncs[a := f] else r.1.newFuncs))))
    case _ => Some(ReadVal(t, c))
  }

  function ValsWithData(datum: Meaning, ts: seq<TVal>, c: Reader): Option<(seq<Val>, Reader)>
    decreases ts
  {
    if ts == [] then Some(([], c))
    else
      match ValWithData(datum, ts[0], c)
      case None => None
      case Some(r) =>
        match ValsWithData(datum, ts[1..], r.1)
        case None => None
        case Some(more) => Some(([r.0] + more.0, more.1))
  }

  // ----- the data that is read -----

  predicate EnvReads(t: TEnv, c: Reader, x: Item)
    decreases t
  {
    && t.EDef? && t.id !in c.envs
    && ((t.parent.Some? && EnvReads(t.parent.value, Begun(c, t.id), x))
        || ValsRead(t.vals, ReadParent(t.parent, Begun(c, t.id)).1, x))
  }

  predicate ValReads(t: TVal, c: Reader, x: Item)
    decreases t
  {
    match t
    case TAtom(n) => x == Datum(n)
    case TMany(frame, ts) => (!frame.Names? && x == Framed(frame, TextKinds(ts))) || ValsRead(ts, c, x)
    case TFuncDef(id, _, closure) => id !in c.funcs && EnvReads(closure, BegunFunc(c, id, Building), x)
    case _ => false
  }

  predicate ValsRead(ts: seq<TVal>, c: Reader, x: Item)
    decreases ts
  {
    ts != [] && (ValReads(ts[0], c, x) || ValsRead(ts[1..], ReadVal(ts[0], c).1, x))
  }

  predicate Unreadable(datum: Meaning, x: Item) {
    FateOf(datum, x) == Fails
  }

  /** Reading fails exactly if some datum that is read does, and else finds what it finds without data. */
  lemma {:induction false} EnvFailsExactly(datum: Meaning, t: TEnv, c: Reader)
    ensures EnvWithData(datum, t, c).None? <==> exists x :: EnvReads(t, c, x) && Unreadable(datum, x)
    ensures EnvWithData(datum, t, c).Some? ==> EnvWithData(datum, t, c).value == ReadEnv(t, c)
    decreases t
  {
    hide Unreadable, Further, OwnCells, Assemble;
    if t.id !in c.envs && t.EDef? {
      var c1 := Begun(c, t.id);
      if t.parent.Some? {
        EnvFailsExactly(datum, t.parent.value, c1);
      }
      var (p, c2) := ReadParent(t.parent, c1);
      ValsFailExactly(datum, t.vals, c2);
      if x :| ValsRead(t.vals, c2, x) && Unreadable(datum, x) {
        assert EnvReads(t, c, x);
      }
      if t.parent.Some? && EnvWithData(datum, t.parent.value, c1).None? {
        var x :| EnvReads(t.parent.value, c1, x) && Unreadable(datum, x);
        assert EnvReads(t, c, x);
      }
      assert |c1.newEnvs| <= |ReadVals(t.vals, c2).1.newEnvs| by {
        Progress(t, c1);
      }
    }
  }

  lemma Progress(t: TEnv, c: Reader)
    requires t.EDef?
    ensures |c.newEnvs| <= |ReadVals(t.vals, ReadParent(t.parent, c).1).1.newEnvs|
  {
    hide OwnCells;
  }

  /** A tensor or map fails if one of its parts or its frame does. */
  lemma FrameFails(datum: Meaning, frame: Frame, ts: seq<TVal>, c: Reader)
    ensures (exists x :: ValReads(TMany(frame, ts), c, x) && Unreadable(datum, x)) <==>
            || (exists x :: ValsRead(ts, c, x) && Unreadable(datum, x))
            || Unreadable(datum, Framed(frame, TextKinds(ts)))
  {
    hide GridFate, KeysFate, DatumFate, ValsRead;
    var t, here := TMany(frame, ts), Framed(frame, TextKinds(ts));
    if Unreadable(datum, here) {
      assert ValReads(t, c, here);
    }
    if x :| ValsRead(ts, c, x) && Unreadable(datum, x) {
      assert ValReads(t, c, x);
    }
  }

  lemma {:induction false} ValFailsExactly(datum: Meaning, t: TVal, c: Reader)
    ensures ValWithData(datum, t, c).None? <==> exists x :: ValReads(t, c, x) && Unreadable(datum, x)
    ensures ValWithData(datum, t, c).Some? ==> ValWithData(datum, t, c).value == ReadVal(t, c)
    decreases t
  {
    hide Further, OwnCells, DatumFate, GridFate, KeysFate;
    match t {
      case TAtom(n) => assert ValReads(t, c, Datum(n));
      case TMany(frame, ts) =>
        ValsFailExactly(datum, ts, c);
        FrameFails(datum, frame, ts, c);
      case TFuncDef(id, info, closure) =>
        if id !in c.funcs {
          var c1 := BegunFunc(c, id, Building);
          EnvFailsExactly(datum, closure, c1);
          assert forall x :: ValReads(t, c, x) <==> EnvReads(closure, c1, x);
          assert |c1.newFuncs| <= |ReadEnv(closure, c1).1.newFuncs| by {
            FurtherCells(c1, ReadEnv(closure, c1).1);
          }
        }
      case _ =>
    }
  }

  lemma {:induction false} ValsFailExactly(datum: Meaning, ts: seq<TVal>, c: Reader)
    ensures ValsWithData(datum, ts, c).None? <==> exists x :: ValsRead(ts, c, x) && Unreadable(datum, x)
    ensures ValsWithData(datum, ts, c).Some? ==> ValsWithData(datum, ts, c).value == ReadVals(ts, c)
    decreases ts
  {
    hide Unreadable, Further, OwnCells, ReadVal, ValReads, ValWithData;
    if ts != [] {
      var c1 := ReadVal(ts[0], c).1;
      ValFailsExactly(datum, ts[0], c);
      ValsFailExactly(datum, ts[1..], c1);
      if x :| ValReads(ts[0], c, x) && Unreadable(datum, x) {
        assert ValsRead(ts, c, x);
      }
      if x :| ValsRead(ts[1..], c1, x) && Unreadable(datum, x) {
        assert ValsRead(ts, c, x);
      }
    }
  }

  // ----- what comes back was read -----

  predicate CellHolds(m: NewEnv, x: Item) {
    Carries(m.schemas, x) || exists name :: name in m.slots && Carries(m.slots[name].val, x)
  }

  predicate CellsHold(c: Reader, c': Reader, x: Item) {
    exists a :: |c.newEnvs| <= a < |c'.newEnvs| && CellHolds(c'.newEnvs[a], x)
  }

  lemma {:induction false} EntriesFrom(marks: seq<Mark>, ws: seq<Val>, name: string)
    requires name in Entries(marks, ws)
    ensures Entries(marks, ws)[name].val in ws
    decreases |marks|
  {
    var k := |marks| - 1;
    if marks[k].name != name {
      EntriesFrom(marks[..k], ws[..k], name);
    }
  }

  lemma AssembleHolds(marks: seq<Mark>, ws: seq<Val>, parent: Option<nat>, x: Item)
    requires CellHolds(Assemble(marks, ws, parent), x)
    ensures AnyHolds(ws, x)
  {
    var m := Assemble(marks, ws, parent);
    if name :| name in m.slots && Carries(m.slots[name].val, x) {
      EntriesFrom(marks, ws, name);
    }
  }

  lemma CellsHoldOn(a: Reader, b: Reader, c: Reader, x: Item)
    requires b.newEnvs <= c.newEnvs && CellsHold(a, c, x)
    ensures CellsHold(a, b, x) || CellsHold(b, c, x)
  {
    hide CellHolds;
  }

  lemma CellsHoldHere(c: Reader, c3: Reader, m: NewEnv, i: nat, x: Item)
    requires |c.newEnvs| < |c3.newEnvs| && CellsHold(c, c3.(newEnvs := c3.newEnvs[|c.newEnvs| := m]), x)
    ensures CellHolds(m, x) || CellsHold(Begun(c, i), c3, x)
  {
    hide CellHolds;
    var a := |c.newEnvs|;
    var c4 := c3.(newEnvs := c3.newEnvs[a := m]);
    var b :| a <= b < |c4.newEnvs| && CellHolds(c4.newEnvs[b], x);
    if b != a {
      assert c4.newEnvs[b] == c3.newEnvs[b] && |Begun(c, i).newEnvs| == a + 1;
    }
  }

  lemma {:induction false} EnvHoldsRead(t: TEnv, c: Reader, x: Item)
    ensures CellsHold(c, ReadEnv(t, c).1, x) ==> EnvReads(t, c, x)
    decreases t
  {
    hide OwnCells, Assemble, CellHolds;
    if t.id !in c.envs && CellsHold(c, ReadEnv(t, c).1, x) {
      var c1 := Begun(c, t.id);
      match t {
        case ERef(_) =>
          assert !CellHolds(BLANK, x) by {
            BlankHoldsNothing(x);
          }
        case EDef(_, marks, vals, parent) =>
          if parent.Some? {
            EnvHoldsRead(parent.value, c1, x);
          }
          var (p, c2) := ReadParent(parent, c1);
          var (ws, c3) := ReadVals(vals, c2);
          ValsHoldRead(vals, c2, x);
          CellsHoldHere(c, c3, Assemble(marks, ws, p), t.id, x);
          if CellHolds(Assemble(marks, ws, p), x) {
            AssembleHolds(marks, ws, p, x);
          } else {
            CellsHoldOn(c1, c2, c3, x);
          }
      }
    }
  }

  lemma BlankHoldsNothing(x: Item)
    ensures !CellHolds(BLANK, x)
  {
  }

  lemma {:induction false} ReadKinds(ts: seq<TVal>, c: Reader)
    ensures KindsOf(ReadVals(ts, c).0) == TextKinds(ts)
    decreases ts
  {
    hide Further, OwnCells;
    if ts != [] {
      var (w, c1) := ReadVal(ts[0], c);
      ReadKinds(ts[1..], c1);
      var ws := ReadVals(ts[1..], c1).0;
      assert KindOf(w) == TextKind(ts[0]);
      assert forall i | 0 < i < |ts| :: ([w] + ws)[i] == ws[i - 1] && ts[i] == ts[1..][i - 1]
                                        && KindsOf(ws)[i - 1] == TextKinds(ts[1..])[i - 1];
    }
  }

  lemma {:induction false} ValHoldsRead(t: TVal, c: Reader, x: Item)
    ensures Carries(ReadVal(t, c).0, x) || CellsHold(c, ReadVal(t, c).1, x) ==> ValReads(t, c, x)
    decreases t
  {
    hide OwnCells, CellHolds;
    match t {
      case TMany(_, ts) =>
        ReadKinds(ts, c);
        ValsHoldRead(ts, c, x);
      case TFuncDef(id, info, closure) =>
        if id !in c.funcs {
          EnvHoldsRead(closure, BegunFunc(c, id, Building), x);
        }
      case _ =>
    }
  }

  lemma {:induction false} ValsHoldRead(ts: seq<TVal>, c: Reader, x: Item)
    ensures AnyHolds(ReadVals(ts, c).0, x) || CellsHold(c, ReadVals(ts, c).1, x) ==> ValsRead(ts, c, x)
    decreases ts
  {
    hide OwnCells, CellHolds, Carries, ReadVal, ValReads;
    if ts != [] {
      var (w, c1) := ReadVal(ts[0], c);
      var (ws, c2) := ReadVals(ts[1..], c1);
      ValHoldsRead(ts[0], c, x);
      ValsHoldRead(ts[1..], c1, x);
      AnyHoldsStep([w] + ws, x);
      assert ([w] + ws)[1..] == ws;
      if CellsHold(c, c2, x) {
        CellsHoldOn(c, c1, c2, x);
      }
    }
  }

  // ----- what is read is reachable -----

  ghost predicate SetHolds(g: Graph, s: set<nat>, x: Item) {
    exists e :: e in s && EnvHolds(g, e, x)
  }

  ghost predicate LedClosed(g: Graph, s: set<nat>) {
    forall y, z :: y in s && LeadsTo(g, y, z) ==> z in s
  }

  ghost predicate TouchesWithin(g: Graph, vs: seq<Val>, s: set<nat>) {
    forall i, z | 0 <= i < |vs| && Touches(g, vs[i], z) :: z in s
  }

  lemma {:induction false} EnvReadsInside(g: Graph, ids: Ctx, t: TEnv, e: nat, c: Reader, s: set<nat>, x: Item)
    requires DescribesEnv(g, ids, t, e) && e in s && LedClosed(g, s) && EnvReads(t, c, x)
    ensures SetHolds(g, s, x)
    decreases t
  {
    hide DescribesVals, Contents, Touches, AnyHolds, ReadEnv, ValsRead;
    var vs, c1 := Contents(g.envs[e]), Begun(c, t.id);
    if t.parent.Some? && EnvReads(t.parent.value, c1, x) {
      assert LeadsTo(g, e, g.envs[e].parent.value);
      EnvReadsInside(g, ids, t.parent.value, g.envs[e].parent.value, c1, s, x);
    } else {
      assert forall i, z | 0 <= i < |vs| && Touches(g, vs[i], z) :: LeadsTo(g, e, z);
      ValsReadInside(g, ids, t.vals, vs, ReadParent(t.parent, c1).1, s, x);
      if AnyHolds(vs, x) {
        assert EnvHolds(g, e, x);
      }
    }
  }

  lemma {:induction false} DescribedKinds(g: Graph, ids: Ctx, ts: seq<TVal>, vs: seq<Val>)
    requires DescribesVals(g, ids, ts, vs)
    ensures TextKinds(ts) == KindsOf(vs)
    decreases ts
  {
    DescribedLength(g, ids, ts, vs);
    if ts != [] {
      DescribedKinds(g, ids, ts[1..], vs[1..]);
      assert TextKind(ts[0]) == KindOf(vs[0]);
      assert forall i | 0 < i < |ts| :: ts[i] == ts[1..][i - 1] && vs[i] == vs[1..][i - 1]
                                        && TextKinds(ts[1..])[i - 1] == KindsOf(vs[1..])[i - 1];
    }
  }

  lemma {:induction false} ValReadsInside(g: Graph, ids: Ctx, t: TVal, v: Val, c: Reader, s: set<nat>, x: Item)
    requires DescribesVal(g, ids, t, v) && (forall z | Touches(g, v, z) :: z in s) && LedClosed(g, s)
             && ValReads(t, c, x)
    ensures Carries(v, x) || SetHolds(g, s, x)
    decreases t
  {
    hide DescribesEnv, DescribesVals, ReadVal, EnvReads, SetHolds, LedClosed;
    match t {
      case TMany(_, ts) =>
        DescribedKinds(g, ids, ts, v.vs);
        assert TouchesWithin(g, v.vs, s) by {
          assert forall i, z | 0 <= i < |v.vs| && Touches(g, v.vs[i], z) :: Touches(g, v, z);
        }
        if ValsRead(ts, c, x) {
          ValsReadInside(g, ids, ts, v.vs, c, s, x);
        }
      case TFuncDef(id, _, closure) =>
        assert Touches(g, v, g.funcs[v.f].closure);
        EnvReadsInside(g, ids, closure, g.funcs[v.f].closure, BegunFunc(c, id, Building), s, x);
      case _ =>
    }
  }

  lemma {:induction false} ValsReadInside(g: Graph, ids: Ctx, ts: seq<TVal>, vs: seq<Val>, c: Reader, s: set<nat>,
      x: Item)
    requires DescribesVals(g, ids, ts, vs) && TouchesWithin(g, vs, s) && LedClosed(g, s) && ValsRead(ts, c, x)
    ensures AnyHolds(vs, x) || SetHolds(g, s, x)
    decreases ts
  {
    hide DescribesVal, ReadVal, ValReads, SetHolds, LedClosed, Touches, Carries;
    AnyHoldsStep(vs, x);
    if ValReads(ts[0], c, x) {
      ValReadsInside(g, ids, ts[0], vs[0], c, s, x);
    } else {
      assert forall i | 0 <= i < |vs[1..]| :: vs[1..][i] == vs[i + 1];
      ValsReadInside(g, ids, ts[1..], vs[1..], ReadVal(ts[0], c).1, s, x);
    }
  }

  // ----- images hold the same data -----

  lemma {:induction false} RenamedHolds(pf: map<nat, nat>, v: Val, w: Val, x: Item)
    requires Renamed(pf, v, w) && Carries(v, x)
    ensures Carries(w, x)
    decreases v
  {
    if v.Many? && !(!v.frame.Names? && x == Framed(v.frame, KindsOf(v.vs))) {
      var i :| 0 <= i < |v.vs| && Carries(v.vs[i], x);
      RenamedHolds(pf, v.vs[i], w.vs[i], x);
    } else if v.Many? {
      assert forall i | 0 <= i < |v.vs| :: Renamed(pf, v.vs[i], w.vs[i]) && KindOf(v.vs[i]) == KindOf(w.vs[i]);
      assert KindsOf(v.vs) == KindsOf(w.vs);
    }
  }

  lemma ImageHolds(g: Graph, c: Reader, pe: map<nat, nat>, pf: map<nat, nat>, e: nat, x: Item)
    requires EnvImage(g, c, pe, pf, e) && EnvHolds(g, e, x)
    ensures CellHolds(c.newEnvs[pe[e]], x)
  {
    hide Renamed, Carries, Traces;
    var ss, m := Traces(g.envs[e].slots), c.newEnvs[pe[e]];
    var i :| 0 <= i < |Contents(g.envs[e])| && Carries(Contents(g.envs[e])[i], x);
    if i < |ss| {
      assert RenamedSlot(pf, ss[i], m.slots[ss[i].name]);
      RenamedHolds(pf, ss[i].val, m.slots[ss[i].name].val, x);
    } else {
      RenamedHolds(pf, g.envs[e].schemas, m.schemas, x);
    }
  }

  // ----- the round trip -----

  /** unserialize of what serialize writes: an error, or a value and everything that was built. */
  ghost function Unserialized(datum: Meaning, g: Graph, v: Val): Option<(Val, Reader)>
    requires Closed(g) && ValOk(g, v) && Storable(v)
  {
    if forall n | ValWrites(Text(g, v).0, Datum(n)) :: Legible(datum(n))
    then ValWithData(datum, Text(g, v).0, NEW_READER) else None
  }

  /** Every datum, tensor and map that came back is what it was. */
  ghost predicate SameData(datum: Meaning, w: Val, c: Reader) {
    forall x | Carries(w, x) || CellsHold(NEW_READER, c, x) :: FateOf(datum, x) == Same
  }

  /** The item is in the value, or in an environment that parents and closures lead to. */
  ghost predicate ReachableHolds(g: Graph, v: Val, x: Item) {
    Carries(v, x) || exists e :: Reachable(g, v, e) && EnvHolds(g, e, x)
  }

  /** What is written is legible, and what can be reached is portable. */
  ghost predicate DataSurvive(datum: Meaning, g: Graph, v: Val) {
    && (forall n | MetHolds(g, v, Datum(n)) :: Legible(datum(n)))
    && (forall x | ReachableHolds(g, v, x) :: PortableItem(datum, x))
  }

  ghost predicate Image(g: Graph, v: Val, w: Val, c: Reader) {
    exists pe, pf :: Isomorphic(g, c, pe, pf) && Renamed(pf, v, w)
  }

  /** Only reachable data are read. */
  lemma ReadIsReachable(g: Graph, v: Val, x: Item)
    requires Closed(g) && ValOk(g, v) && Storable(v) && ValReads(Text(g, v).0, NEW_READER, x)
    ensures ReachableHolds(g, v, x)
  {
    hide ValReads, WriteVal, DescribesVal, Closed, ValOk, Reachable, LeadsTo, EnvHolds;
    var (t, ids) := Text(g, v);
    TextIs(g, v);
    ReachableClosed(g, v);
    ValReadsInside(g, ids, t, v, NEW_READER, ReachableSet(g, v), x);
  }

  /** An image holds all reachable data. */
  lemma ReachableComesBack(g: Graph, v: Val, w: Val, c: Reader, x: Item)
    requires Image(g, v, w, c) && ReachableHolds(g, v, x)
    ensures Carries(w, x) || CellsHold(NEW_READER, c, x)
  {
    hide Reachable, EnvHolds, EnvImage, FuncImage, AliasImages, Injective, CellHolds, Renamed, Carries;
    var pe, pf :| Isomorphic(g, c, pe, pf) && Renamed(pf, v, w);
    if Carries(v, x) {
      RenamedHolds(pf, v, w, x);
    } else {
      var e :| Reachable(g, v, e) && EnvHolds(g, e, x);
      ReachableHasImage(g, c, pe, pf, v, w, e);
      ImageHolds(g, c, pe, pf, e, x);
      ImagePlace(g, c, pe, pf, e);
    }
  }

  lemma ImagePlace(g: Graph, c: Reader, pe: map<nat, nat>, pf: map<nat, nat>, e: nat)
    requires EnvImage(g, c, pe, pf, e)
    ensures e in pe && pe[e] < |c.newEnvs|
  {
  }

  /**
   * A graph of closures is read back as an isomorphic graph with the very data that it held
   * if and only if the graph survives, all data that is written is legible, and all data that
   * can be reached is portable.
   */
  lemma DataRoundTrip(datum: Meaning, g: Graph, v: Val)
    requires Closed(g) && AllNamesDistinct(g) && ValOk(g, v) && Storable(v)
    requires forall x | ReachableHolds(g, v, x) :: SoundItem(datum, x)
    ensures var r := Unserialized(datum, g, v);
            r.Some? && Image(g, v, r.value.0, r.value.1) && SameData(datum, r.value.0, r.value.1)
            <==> Survives(g, v) && DataSurvive(datum, g, v)
  {
    hide WriteVal, ReadVal, ValReads, ValWrites, ValWithData, Closed, ValOk, AllNamesDistinct, Isomorphic, Renamed,
         Survives, Legible, FateOf, PortableItem, SoundItem, ReachableHolds, MetHolds, Carries, CellsHold;
    var t := Text(g, v).0;
    ValFailsExactly(datum, t, NEW_READER);
    GraphRoundTrip(g, v);
    var (w, c) := Back(g, v);
    forall x ensures ValWrites(t, x) <==> MetHolds(g, v, x) {
      WritesExactly(g, v, x);
    }
    forall x | ReachableHolds(g, v, x) ensures FateOf(datum, x) == Same <==> PortableItem(datum, x) {
      SameIfPortable(datum, x);
    }
    forall x | Carries(w, x) || CellsHold(NEW_READER, c, x) ensures ReachableHolds(g, v, x) {
      ValHoldsRead(t, NEW_READER, x);
      ReadIsReachable(g, v, x);
    }
    forall x | ValReads(t, NEW_READER, x) ensures ReachableHolds(g, v, x) {
      ReadIsReachable(g, v, x);
    }
    if Image(g, v, w, c) {
      forall x | ReachableHolds(g, v, x) ensures Carries(w, x) || CellsHold(NEW_READER, c, x) {
        ReachableComesBack(g, v, w, c, x);
      }
    }
  }
}
