/**
 * Environments (src/env.c) as values: a tree of name tables whose entries may be
 * aliases of entries elsewhere, and the direct operations on it.
 *
 * A pointer to an entry is its environment and its place in the table: entries are
 * never removed and never move.
 */
module EnvModel {
  import opened Common

  type Name = string
  type EnvId = nat

  datatype DeclType = TUnknown | TBool | TInt | TFloat | TStr | TTensor | TMap | TFunc | TThread

  /** A value as far as environments look at it; the tag of VAL_NULL is TUnknown. */
  datatype Value = Value(tag: DeclType, base: int, data: int)

  const Null := Value(TUnknown, 2, 0)

  datatype Alias = Alias(target: Name, env: Option<EnvId>)

  datatype Entry = Entry(
    name: Name,
    declType: DeclType,
    declBase: int,
    schema: Value,
    value: Value,
    initialized: bool,
    frozen: bool,
    permafrozen: bool,
    alias: Option<Alias>)

  datatype EnvRec = EnvRec(parent: Option<EnvId>, entries: seq<Entry>)

  type Store = map<EnvId, EnvRec>

  datatype Ref = Ref(env: EnvId, index: nat)

  predicate IsNumber(t: DeclType) {
    t == TInt || t == TFloat
  }

  /** decl_type_equal (src/value.c:1009) */
  predicate TypeEqual(a: DeclType, baseA: int, b: DeclType, baseB: int) {
    a == b && (IsNumber(a) && baseA != 0 && baseB != 0 ==> baseA == baseB)
  }

  /** decl_type_accepts_value (src/value.c:1021) */
  predicate Accepts(t: DeclType, base: int, v: Value) {
    t == v.tag && (IsNumber(t) && base != 0 && v.base != 0 ==> base == v.base)
  }

  // ----- lookup -----

  /** The place of the first entry with this name: the linear scan. */
  function FindLocal(es: seq<Entry>, name: Name): (r: Option<nat>)
    ensures r.Some? ==> r.value < |es| && es[r.value].name == name && forall i | 0 <= i < r.value :: es[i].name != name
    ensures r.None? ==> forall i | 0 <= i < |es| :: es[i].name != name
  {
    if es == [] then None
    else
      var r := FindLocal(es[..|es| - 1], name);
      if r.Some? then r else if es[|es| - 1].name == name then Some(|es| - 1) else None
  }

  predicate Exists(st: Store, r: Ref) {
    r.env in st && r.index < |st[r.env].entries|
  }

  function At(st: Store, r: Ref): Entry
    requires Exists(st, r)
  {
    st[r.env].entries[r.index]
  }

  /** env_get_entry_raw_with_env: the nearest environment on the way to the root that has the name. */
  function Lookup(st: Store, e: EnvId, name: Name): (r: Option<Ref>)
    ensures r.Some? ==> Exists(st, r.value) && At(st, r.value).name == name
    decreases e
  {
    if e !in st then None
    else
      var i := FindLocal(st[e].entries, name);
      if i.Some? then Some(Ref(e, i.value))
      else match st[e].parent
           case Some(p) => if p < e then Lookup(st, p, name) else None
           case None => None
  }

  /** Where an alias leads in one step. */
  function Target(st: Store, r: Ref): (t: Option<Ref>)
    requires Exists(st, r) && At(st, r).alias.Some?
    ensures t.Some? ==> Exists(st, t.value)
  {
    var a := At(st, r).alias.value;
    Lookup(st, if a.env.Some? then a.env.value else r.env, a.target)
  }

  const MaxHops: nat := 257

  /** The end of the alias chain from r, if it is reached within `fuel` hops. */
  function Chase(st: Store, r: Ref, fuel: nat): (t: Option<Ref>)
    requires Exists(st, r)
    ensures t.Some? ==> Exists(st, t.value) && At(st, t.value).alias.None?
    decreases fuel
  {
    if At(st, r).alias.None? then Some(r)
    else if fuel == 0 then None
    else
      var t := Target(st, r);
      if t.None? then None else Chase(st, t.value, fuel - 1)
  }

  /** The same walk, given up as soon as an alias with the target name `name` is met. */
  function ChaseAvoiding(st: Store, r: Ref, name: Name, fuel: nat): (t: Option<Ref>)
    requires Exists(st, r)
    ensures t.Some? ==> Exists(st, t.value) && At(st, t.value).alias.None?
    decreases fuel
  {
    if At(st, r).alias.None? then Some(r)
    else if fuel == 0 || At(st, r).alias.value.target == name then None
    else
      var t := Target(st, r);
      if t.None? then None else ChaseAvoiding(st, t.value, name, fuel - 1)
  }

  datatype Answer = Missing | Found(value: Value, declType: DeclType, declBase: int, initialized: bool)

  /** env_get_raw */
  function Get(st: Store, e: EnvId, name: Name): Answer {
    var r := Lookup(st, e, name);
    if r.None? then Missing
    else
      var t := Chase(st, r.value, MaxHops);
      if t.None? then Missing
      else
        var x := At(st, t.value);
        Found(x.value, x.declType, x.declBase, x.initialized)
  }

  // ----- the direct operations -----

  datatype Reply = Ok(ok: bool) | Code(code: int)

  /** value_map_matches(value, schema): left abstract. */
  type Matcher = (Value, Value) -> bool

  function SetEntry(st: Store, r: Ref, x: Entry): Store
    requires Exists(st, r)
  {
    st[r.env := st[r.env].(entries := st[r.env].entries[r.index := x])]
  }

  function NewEntry(name: Name, t: DeclType, base: int, schema: Value): Entry {
    Entry(name, t, base, schema, Null, false, false, false, None)
  }

  function AddEntry(st: Store, e: EnvId, x: Entry): Store
    requires e in st
  {
    st[e := st[e].(entries := st[e].entries + [x])]
  }

  function Define(st: Store, e: EnvId, name: Name, t: DeclType, base: int, schema: Value): (Store, bool)
    requires e in st
  {
    if FindLocal(st[e].entries, name).Some? then (st, false)
    else (AddEntry(st, e, NewEntry(name, t, base, schema)), true)
  }

  predicate SchemaAllows(matches: Matcher, x: Entry, v: Value) {
    x.declType == TMap && x.schema.tag == TMap && v.tag == TMap ==> matches(v, x.schema)
  }

  /** The tests an assignment makes on the entry it is going to write. */
  predicate MayAssign(matches: Matcher, x: Entry, v: Value, t: DeclType, base: int) {
    && !x.frozen && !x.permafrozen
    && (t != TUnknown ==> TypeEqual(x.declType, x.declBase, t, base))
    && (x.declType != TUnknown ==> Accepts(x.declType, x.declBase, v))
    && SchemaAllows(matches, x, v)
  }

  /** The entry an assignment to the entry r writes: one hop along an alias, no more. */
  function WriteTarget(st: Store, r: Ref): (w: Option<Ref>)
    requires Exists(st, r)
    ensures w.Some? ==> Exists(st, w.value)
  {
    if At(st, r).alias.Some? then Target(st, r) else Some(r)
  }

  function Assign(matches: Matcher, st: Store, e: EnvId, name: Name, v: Value, t: DeclType, base: int,
      declare: bool): (Store, bool)
    requires e in st
  {
    var r := Lookup(st, e, name);
    if r.Some? then
      var w := WriteTarget(st, r.value);
      if w.Some? && MayAssign(matches, At(st, w.value), v, t, base)
      then (SetEntry(st, w.value, At(st, w.value).(value := v, initialized := true)), true)
      else (st, false)
    else if declare && t != TUnknown && Accepts(t, base, v)
    then (AddEntry(st, e, NewEntry(name, t, base, Null).(value := v, initialized := true)), true)
    else (st, false)
  }

  function Delete(st: Store, e: EnvId, name: Name): (Store, bool) {
    var r := Lookup(st, e, name);
    if r.None? || At(st, r.value).frozen || At(st, r.value).permafrozen then (st, false)
    else
      var x := At(st, r.value).(schema := Null, value := Null, initialized := false, alias := None);
      (SetEntry(st, r.value, x), true)
  }

  /** What set_alias makes of an entry x whose chain ends at the entry `end` of environment `env`. */
  function Aliased(x: Entry, end: Entry, env: EnvId): Entry {
    x.(declType := end.declType, declBase := end.declBase, schema := Null,
       value := if x.initialized then Null else x.value,
       initialized := true, alias := Some(Alias(end.name, Some(env))))
  }

  /** Where env_set_alias_direct finds the end of the chain that starts at the target name. */
  function AliasEnd(st: Store, from: EnvId, name: Name, target: Name): (t: Option<Ref>)
    ensures t.Some? ==> Exists(st, t.value) && At(st, t.value).alias.None?
  {
    var r := Lookup(st, from, target);
    if r.None? then None else ChaseAvoiding(st, r.value, name, MaxHops)
  }

  /** env_set_alias_cross; env_set_alias_direct is the case from == e. */
  function SetAlias(st: Store, e: EnvId, name: Name, from: EnvId, target: Name, t: DeclType, base: int,
      declare: bool): (Store, bool)
    requires e in st
  {
    var end := AliasEnd(st, from, name, target);
    if end.None? then (st, false)
    else
      var x := At(st, end.value);
      if x.frozen || x.permafrozen || (t != TUnknown && !TypeEqual(t, base, x.declType, x.declBase)) then (st, false)
      else
        var i := FindLocal(st[e].entries, name);
        if i.Some? then
          var y := st[e].entries[i.value];
          if y.frozen || y.permafrozen then (st, false)
          else (SetEntry(st, Ref(e, i.value), Aliased(y, x, end.value.env)), true)
        else if !declare then (st, false)
        else (AddEntry(st, e, Aliased(NewEntry(name, t, base, Null), x, end.value.env)), true)
  }

  function Restored(x: Entry, v: Value, t: DeclType, base: int, init: bool): Entry {
    x.(declType := t, declBase := base, schema := Null, alias := None,
       value := if init then v else Null, initialized := init)
  }

  function Restore(st: Store, e: EnvId, name: Name, v: Value, t: DeclType, base: int, init: bool): (Store, bool)
    requires e in st
  {
    var i := FindLocal(st[e].entries, name);
    if i.None? then (AddEntry(st, e, Restored(NewEntry(name, t, base, Null), v, t, base, init)), true)
    else
      var x := st[e].entries[i.value];
      if x.frozen || x.permafrozen then (st, false)
      else (SetEntry(st, Ref(e, i.value), Restored(x, v, t, base, init)), true)
  }

  function Freeze(st: Store, e: EnvId, name: Name): (Store, int) {
    var r := Lookup(st, e, name);
    if r.None? then (st, -1) else (SetEntry(st, r.value, At(st, r.value).(frozen := true)), 0)
  }

  function Thaw(st: Store, e: EnvId, name: Name): (Store, int) {
    var r := Lookup(st, e, name);
    if r.None? then (st, -1)
    else if At(st, r.value).permafrozen then (st, -2)
    else (SetEntry(st, r.value, At(st, r.value).(frozen := false)), 0)
  }

  function Permafreeze(st: Store, e: EnvId, name: Name): (Store, int) {
    var r := Lookup(st, e, name);
    if r.None? then (st, -1)
    else (SetEntry(st, r.value, At(st, r.value).(permafrozen := true, frozen := true)), 0)
  }

  /** One buffered write: NsOp without its bookkeeping. */
  datatype Call =
    | CallDefine(env: EnvId, name: Name, declType: DeclType, base: int, schema: Value)
    | CallAssign(env: EnvId, name: Name, value: Value, declType: DeclType, base: int, declare: bool)
    | CallDelete(env: EnvId, name: Name)
    | CallAlias(env: EnvId, name: Name, from: EnvId, target: Name, declType: DeclType, base: int, declare: bool)
    | CallRestore(env: EnvId, name: Name, value: Value, declType: DeclType, base: int, init: bool)
    | CallFreeze(env: EnvId, name: Name)
    | CallThaw(env: EnvId, name: Name)
    | CallPermafreeze(env: EnvId, name: Name)

  /** execute_op (src/ns_buffer.c:88); an environment that does not exist is refused. */
  function Execute(matches: Matcher, st: Store, c: Call): (Store, Reply) {
    if c.env !in st then (st, Ok(false))
    else
      match c
      case CallDefine(e, n, t, b, s) => var (st', ok) := Define(st, e, n, t, b, s); (st', Ok(ok))
      case CallAssign(e, n, v, t, b, d) => var (st', ok) := Assign(matches, st, e, n, v, t, b, d); (st', Ok(ok))
      case CallDelete(e, n) => var (st', ok) := Delete(st, e, n); (st', Ok(ok))
      case CallAlias(e, n, f, g, t, b, d) => var (st', ok) := SetAlias(st, e, n, f, g, t, b, d); (st', Ok(ok))
      case CallRestore(e, n, v, t, b, i) => var (st', ok) := Restore(st, e, n, v, t, b, i); (st', Ok(ok))
      case CallFreeze(e, n) => var (st', code) := Freeze(st, e, n); (st', Code(code))
      case CallThaw(e, n) => var (st', code) := Thaw(st, e, n); (st', Code(code))
      case CallPermafreeze(e, n) => var (st', code) := Permafreeze(st, e, n); (st', Code(code))
  }

  /** env_create: a new environment is younger than all others, and its parent is one of them. */
  predicate MayCreate(st: Store, e: EnvId, parent: Option<EnvId>) {
    (forall f | f in st :: f < e) && (parent.Some? ==> parent.value in st)
  }

  /** What happens to environments one after the other. */
  datatype Deed = Direct(call: Call) | Creation(env: EnvId, parent: Option<EnvId>)

  function Perform(matches: Matcher, st: Store, d: Deed): Store {
    match d
    case Direct(c) => Execute(matches, st, c).0
    case Creation(e, parent) => if MayCreate(st, e, parent) then st[e := EnvRec(parent, [])] else st
  }
}
