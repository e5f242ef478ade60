/** What the direct operations of src/env.c keep, over every sequence of them. */
module EnvLaws {
  import opened Common
  import opened EnvModel

  // ----- well-formed stores -----

  ghost predicate NamesDistinct(es: seq<Entry>) {
    forall i, j | 0 <= i < j < |es| :: es[i].name != es[j].name
  }

  /** An alias carries its environment, and that environment itself has the target name. */
  ghost predicate AliasOk(st: Store, x: Entry) {
    x.alias.Some? ==>
      && x.alias.value.env.Some?
      && x.alias.value.env.value in st
      && FindLocal(st[x.alias.value.env.value].entries, x.alias.value.target).Some?
  }

  ghost predicate WellFormed(st: Store) {
    && (forall e :: e in st && st[e].parent.Some? ==> st[e].parent.value in st && st[e].parent.value < e)
    && (forall e :: e in st ==> NamesDistinct(st[e].entries))
    && (forall r :: Exists(st, r) ==> AliasOk(st, At(st, r)))
  }

  /** permafrozen entries are frozen */
  ghost predicate FlagsOk(st: Store) {
    forall r :: Exists(st, r) && At(st, r).permafrozen ==> At(st, r).frozen
  }

  /** An initialised entry that is no alias and has a known type holds a value of that type. */
  predicate TypeOk(x: Entry) {
    x.initialized && x.alias.None? && x.declType != TUnknown ==> Accepts(x.declType, x.declBase, x.value)
  }

  ghost predicate TypesOk(st: Store) {
    forall r :: Exists(st, r) ==> TypeOk(At(st, r))
  }

  /** `st'` has the environments of `st`, each with at least its entries under their old names, and maybe more. */
  ghost predicate Extends(st: Store, st': Store) {
    && (forall e :: e in st ==> e in st' && st'[e].parent == st[e].parent && |st[e].entries| <= |st'[e].entries|)
    && (forall r :: Exists(st, r) ==> Exists(st', r) && At(st', r).name == At(st, r).name)
  }

  // ----- the three ways a store changes -----

  lemma {:induction false} FindLocalStable(es: seq<Entry>, es': seq<Entry>, name: Name)
    requires |es| <= |es'| && forall i | 0 <= i < |es| :: es'[i].name == es[i].name
    requires FindLocal(es, name).Some?
    ensures FindLocal(es', name) == FindLocal(es, name)
  {
  }

  lemma FindLocalUnique(es: seq<Entry>, i: nat)
    requires NamesDistinct(es) && i < |es|
    ensures FindLocal(es, es[i].name) == Some(i)
  {
  }

  /** Changing one entry, keeping its name. */
  lemma SetEntryFrame(st: Store, r: Ref, x: Entry)
    requires Exists(st, r) && x.name == At(st, r).name
    ensures
      var st' := SetEntry(st, r, x);
      && Extends(st, st')
      && At(st', r) == x
      && (forall q :: Exists(st', q) <==> Exists(st, q))
      && (forall q :: Exists(st, q) && q != r ==> At(st', q) == At(st, q))
      && (forall e :: e in st ==> |st'[e].entries| == |st[e].entries|)
      && (forall e :: e in st && NamesDistinct(st[e].entries) ==> NamesDistinct(st'[e].entries))
  {
  }

  lemma SetEntryKeeps(st: Store, r: Ref, x: Entry)
    requires WellFormed(st) && Exists(st, r) && x.name == At(st, r).name && AliasOk(st, x)
    ensures WellFormed(SetEntry(st, r, x)) && Extends(st, SetEntry(st, r, x))
    ensures At(SetEntry(st, r, x), r) == x
    ensures forall q :: Exists(st, q) && q != r ==> At(SetEntry(st, r, x), q) == At(st, q)
    ensures forall q :: Exists(SetEntry(st, r, x), q) ==> Exists(st, q)
  {
    SetEntryFrame(st, r, x);
    hide SetEntry;
    var st' := SetEntry(st, r, x);
    forall q | Exists(st', q) ensures AliasOk(st', At(st', q)) {
      AliasStaysOk(st, st', if q == r then x else At(st, q));
    }
  }

  lemma AliasStaysOk(st: Store, st': Store, y: Entry)
    requires Extends(st, st') && AliasOk(st, y)
    ensures AliasOk(st', y)
  {
    if y.alias.Some? {
      var f := y.alias.value.env.value;
      forall i | 0 <= i < |st[f].entries| ensures st'[f].entries[i].name == st[f].entries[i].name {
        assert Exists(st, Ref(f, i));
      }
      FindLocalStable(st[f].entries, st'[f].entries, y.alias.value.target);
    }
  }

  /** Adding an entry under a new name. */
  lemma AddEntryKeeps(st: Store, e: EnvId, x: Entry)
    requires WellFormed(st) && e in st && FindLocal(st[e].entries, x.name).None? && AliasOk(st, x)
    ensures WellFormed(AddEntry(st, e, x)) && Extends(st, AddEntry(st, e, x))
    ensures var q := Ref(e, |st[e].entries|); Exists(AddEntry(st, e, x), q) && At(AddEntry(st, e, x), q) == x
    ensures forall q :: Exists(st, q) ==> At(AddEntry(st, e, x), q) == At(st, q)
    ensures forall q :: Exists(AddEntry(st, e, x), q) ==> Exists(st, q) || q == Ref(e, |st[e].entries|)
  {
    var st' := AddEntry(st, e, x);
    forall q | Exists(st', q) ensures AliasOk(st', At(st', q)) {
      AliasStaysOk(st, st', if q == Ref(e, |st[e].entries|) then x else At(st, q));
    }
  }

  /** One more environment, still empty. */
  lemma CreationKeeps(st: Store, f: EnvId, parent: Option<EnvId>)
    requires WellFormed(st) && MayCreate(st, f, parent)
    ensures WellFormed(st[f := EnvRec(parent, [])]) && Extends(st, st[f := EnvRec(parent, [])])
    ensures forall q :: Exists(st, q) ==> At(st[f := EnvRec(parent, [])], q) == At(st, q)
    ensures forall q :: Exists(st[f := EnvRec(parent, [])], q) ==> Exists(st, q)
  {
    var st' := st[f := EnvRec(parent, [])];
    forall q | Exists(st', q) ensures AliasOk(st', At(st', q)) {
      AliasStaysOk(st, st', At(st, q));
    }
  }

  /** What happens: nothing, a change of one entry, one more entry, or one more environment. */
  datatype Change =
    | Same
    | Changed(r: Ref, x: Entry)
    | Added(e: EnvId, y: Entry)
    | Created(f: EnvId, parent: Option<EnvId>)

  ghost predicate Makes(st: Store, st': Store, c: Change) {
    match c
    case Same => st' == st
    case Changed(r, x) => Exists(st, r) && x.name == At(st, r).name && AliasOk(st, x) && st' == SetEntry(st, r, x)
    case Added(e, y) => e in st && FindLocal(st[e].entries, y.name).None? && AliasOk(st, y) && st' == AddEntry(st, e, y)
    case Created(f, parent) => MayCreate(st, f, parent) && st' == st[f := EnvRec(parent, [])]
  }

  /**
   * Every change respects permafrozen entries, keeps permafrozen entries frozen, and
   * leaves a value of the declared type.
   */
  ghost predicate Respects(st: Store, c: Change) {
    match c
    case Same => true
    case Changed(r, x) =>
      Exists(st, r) ==>
        && (At(st, r).permafrozen ==> x == At(st, r).(frozen := true))
        && (x.permafrozen ==> x.frozen)
        && (TypeOk(At(st, r)) ==> TypeOk(x))
    case Added(_, y) => !y.permafrozen && TypeOk(y)
    case Created(_, _) => true
  }

  lemma AliasEndExists(st: Store, from: EnvId, name: Name, target: Name)
    requires WellFormed(st) && AliasEnd(st, from, name, target).Some?
    ensures
      var r := AliasEnd(st, from, name, target).value;
      r.env in st && FindLocal(st[r.env].entries, At(st, r).name) == Some(r.index)
  {
    var r := AliasEnd(st, from, name, target).value;
    FindLocalUnique(st[r.env].entries, r.index);
  }

  /** What each call does to the store. */
  ghost function ChangeOf(matches: Matcher, st: Store, c: Call): Change {
    if c.env !in st then Same
    else
      match c
      case CallDefine(e, n, t, b, s) =>
        if FindLocal(st[e].entries, n).Some? then Same else Added(e, NewEntry(n, t, b, s))
      case CallAssign(e, n, v, t, b, d) =>
        var r := Lookup(st, e, n);
        if r.Some? then
          var w := WriteTarget(st, r.value);
          if w.Some? && MayAssign(matches, At(st, w.value), v, t, b)
          then Changed(w.value, At(st, w.value).(value := v, initialized := true))
          else Same
        else if d && t != TUnknown && Accepts(t, b, v)
        then Added(e, NewEntry(n, t, b, Null).(value := v, initialized := true))
        else Same
      case CallDelete(e, n) =>
        var r := Lookup(st, e, n);
        if r.None? || At(st, r.value).frozen || At(st, r.value).permafrozen then Same
        else Changed(r.value, At(st, r.value).(schema := Null, value := Null, initialized := false, alias := None))
      case CallAlias(e, n, f, g, t, b, d) =>
        var end := AliasEnd(st, f, n, g);
        if !SetAlias(st, e, n, f, g, t, b, d).1 then Same
        else
          var i := FindLocal(st[e].entries, n);
          if i.Some? then Changed(Ref(e, i.value), Aliased(st[e].entries[i.value], At(st, end.value), end.value.env))
          else Added(e, Aliased(NewEntry(n, t, b, Null), At(st, end.value), end.value.env))
      case CallRestore(e, n, v, t, b, init) =>
        var i := FindLocal(st[e].entries, n);
        if i.None? then Added(e, Restored(NewEntry(n, t, b, Null), v, t, b, init))
        else if st[e].entries[i.value].frozen || st[e].entries[i.value].permafrozen then Same
        else Changed(Ref(e, i.value), Restored(st[e].entries[i.value], v, t, b, init))
      case CallFreeze(e, n) =>
        var r := Lookup(st, e, n);
        if r.None? then Same else Changed(r.value, At(st, r.value).(frozen := true))
      case CallThaw(e, n) =>
        var r := Lookup(st, e, n);
        if r.None? || At(st, r.value).permafrozen then Same else Changed(r.value, At(st, r.value).(frozen := false))
      case CallPermafreeze(e, n) =>
        var r := Lookup(st, e, n);
        if r.None? then Same else Changed(r.value, At(st, r.value).(permafrozen := true, frozen := true))
  }

  /** restore is called with a value of the type it is called with */
  predicate CallOk(c: Call) {
    c.CallRestore? && c.init && c.declType != TUnknown ==> Accepts(c.declType, c.base, c.value)
  }

  lemma AssignMakes(matches: Matcher, st: Store, c: Call)
    requires WellFormed(st) && c.CallAssign? && c.env in st
    ensures Makes(st, Assign(matches, st, c.env, c.name, c.value, c.declType, c.base, c.declare).0,
            ChangeOf(matches, st, c))
  {
    var r := Lookup(st, c.env, c.name);
    if r.Some? {
      var w := WriteTarget(st, r.value);
      if w.Some? {
        assert AliasOk(st, At(st, w.value));
      }
    }
  }

  lemma AliasMakes(matches: Matcher, st: Store, c: Call)
    requires WellFormed(st) && c.CallAlias? && c.env in st
    ensures Makes(st, SetAlias(st, c.env, c.name, c.from, c.target, c.declType, c.base, c.declare).0,
            ChangeOf(matches, st, c))
  {
    if AliasEnd(st, c.from, c.name, c.target).Some? {
      AliasEndExists(st, c.from, c.name, c.target);
    }
  }

  lemma LocalMakes(matches: Matcher, st: Store, c: Call)
    requires WellFormed(st) && (c.CallDefine? || c.CallRestore?) && c.env in st
    ensures Makes(st, Execute(matches, st, c).0, ChangeOf(matches, st, c))
  {
  }

  lemma NamedMakes(matches: Matcher, st: Store, c: Call)
    requires WellFormed(st) && (c.CallDelete? || c.CallFreeze? || c.CallThaw? || c.CallPermafreeze?) && c.env in st
    ensures Makes(st, Execute(matches, st, c).0, ChangeOf(matches, st, c))
  {
    var r := Lookup(st, c.env, c.name);
    if r.Some? {
      assert AliasOk(st, At(st, r.value));
    }
  }

  lemma ExecuteMakes(matches: Matcher, st: Store, c: Call)
    requires WellFormed(st)
    ensures Makes(st, Execute(matches, st, c).0, ChangeOf(matches, st, c))
  {
    if c.env in st {
      hide WellFormed, ChangeOf, Makes, Assign, SetAlias;
      match c
      case CallAssign(_, _, _, _, _, _) => AssignMakes(matches, st, c);
      case CallAlias(_, _, _, _, _, _, _) => AliasMakes(matches, st, c);
      case CallDefine(_, _, _, _, _) => LocalMakes(matches, st, c);
      case CallRestore(_, _, _, _, _, _) => LocalMakes(matches, st, c);
      case _ => NamedMakes(matches, st, c);
    }
  }

  lemma ExecuteRespects(matches: Matcher, st: Store, c: Call)
    requires WellFormed(st) && CallOk(c)
    ensures Respects(st, ChangeOf(matches, st, c))
  {
  }

  // ----- runs -----

  function ExecuteAll(matches: Matcher, st: Store, deeds: seq<Deed>): Store {
    if deeds == [] then st else Perform(matches, ExecuteAll(matches, st, deeds[..|deeds| - 1]), deeds[|deeds| - 1])
  }

  predicate DeedOk(d: Deed) {
    d.Direct? ==> CallOk(d.call)
  }

  ghost function ChangeBy(matches: Matcher, st: Store, d: Deed): Change {
    match d
    case Direct(c) => ChangeOf(matches, st, c)
    case Creation(e, parent) => if MayCreate(st, e, parent) then Created(e, parent) else Same
  }

  lemma DeedMakes(matches: Matcher, st: Store, d: Deed)
    requires WellFormed(st) && DeedOk(d)
    ensures Makes(st, Perform(matches, st, d), ChangeBy(matches, st, d)) && Respects(st, ChangeBy(matches, st, d))
  {
    hide WellFormed, ChangeOf, Execute;
    if d.Direct? {
      hide Makes, Respects;
      ExecuteMakes(matches, st, d.call);
      ExecuteRespects(matches, st, d.call);
    }
  }

  ghost predicate StoreOk(st: Store) {
    WellFormed(st) && FlagsOk(st) && TypesOk(st)
  }

  /** What one change keeps. */
  lemma ChangeKeeps(st: Store, st': Store, c: Change)
    requires WellFormed(st) && FlagsOk(st) && Makes(st, st', c) && Respects(st, c)
    ensures WellFormed(st') && FlagsOk(st') && Extends(st, st')
    ensures TypesOk(st) ==> TypesOk(st')
    ensures forall r :: Exists(st, r) && At(st, r).permafrozen ==> At(st', r) == At(st, r)
  {
    hide WellFormed, AliasOk, Extends;
    match c
    case Same => ExtendsRefl(st);
    case Changed(r, x) => SetEntryKeeps(st, r, x);
    case Added(e, y) => AddEntryKeeps(st, e, y);
    case Created(f, parent) =>
      CreationKeeps(st, f, parent);
      forall q | Exists(st', q) ensures Exists(st, q) && At(st', q) == At(st, q) {
      }
  }

  lemma ExtendsRefl(st: Store)
    ensures Extends(st, st)
  {
  }

  lemma ExtendsTrans(a: Store, b: Store, c: Store)
    requires Extends(a, b) && Extends(b, c)
    ensures Extends(a, c)
  {
  }

  /**
   * Over every sequence of direct operations and creations of environments: stores stay
   * well formed, permafrozen entries stay frozen and stay exactly what they were, entries
   * keep their places and names, and values keep to the declared types.
   */
  lemma {:induction false} RunsKeep(matches: Matcher, st: Store, deeds: seq<Deed>)
    requires StoreOk(st) && forall i | 0 <= i < |deeds| :: DeedOk(deeds[i])
    ensures StoreOk(ExecuteAll(matches, st, deeds)) && Extends(st, ExecuteAll(matches, st, deeds))
    ensures forall r :: Exists(st, r) && At(st, r).permafrozen ==> At(ExecuteAll(matches, st, deeds), r) == At(st, r)
  {
    hide WellFormed, FlagsOk, TypesOk, Extends, Perform, Makes, Respects, ChangeBy;
    if deeds == [] {
      ExtendsRefl(st);
    } else {
      var before := ExecuteAll(matches, st, deeds[..|deeds| - 1]);
      var d := deeds[|deeds| - 1];
      RunsKeep(matches, st, deeds[..|deeds| - 1]);
      DeedMakes(matches, before, d);
      var after := Perform(matches, before, d);
      ChangeKeeps(before, after, ChangeBy(matches, before, d));
      ExtendsTrans(st, before, after);
      forall r | Exists(st, r) && At(st, r).permafrozen ensures At(after, r) == At(st, r) {
        ExtendsAt(st, before, r);
      }
    }
  }

  lemma ExtendsAt(st: Store, st': Store, r: Ref)
    requires Extends(st, st') && Exists(st, r)
    ensures Exists(st', r) && At(st', r).name == At(st, r).name
  {
  }

  // ----- aliases -----

  /** A link leads to the same entry in every later store. */
  lemma LinkIsStable(st: Store, st': Store, x: Entry)
    requires WellFormed(st) && WellFormed(st') && Extends(st, st') && AliasOk(st, x) && x.alias.Some?
    ensures
      var f := x.alias.value.env.value;
      && Lookup(st', f, x.alias.value.target) == Lookup(st, f, x.alias.value.target)
      && Lookup(st, f, x.alias.value.target) == Some(Ref(f, FindLocal(st[f].entries, x.alias.value.target).value))
  {
    var f := x.alias.value.env.value;
    forall i | 0 <= i < |st[f].entries| ensures st'[f].entries[i].name == st[f].entries[i].name {
      ExtendsAt(st, st', Ref(f, i));
    }
    FindLocalStable(st[f].entries, st'[f].entries, x.alias.value.target);
  }

  lemma TargetIsStable(st: Store, st': Store, r: Ref)
    requires WellFormed(st) && WellFormed(st') && Extends(st, st') && Exists(st, r) && Exists(st', r)
    requires At(st, r).alias.Some? && At(st', r).alias == At(st, r).alias
    ensures Target(st', r) == Target(st, r) && Target(st, r).Some?
  {
    LinkIsStable(st, st', At(st, r));
  }

  ghost predicate Resolves(st: Store, r: Ref)
    requires Exists(st, r)
  {
    exists n: nat :: Chase(st, r, n).Some?
  }

  /** Every chain of aliases comes to an end. */
  ghost predicate Acyclic(st: Store) {
    forall r :: Exists(st, r) ==> Resolves(st, r)
  }

  lemma {:induction false} ChaseMore(st: Store, r: Ref, n: nat, m: nat)
    requires Exists(st, r) && Chase(st, r, n).Some? && n <= m
    ensures Chase(st, r, m) == Chase(st, r, n)
    decreases n
  {
    if At(st, r).alias.Some? {
      ChaseMore(st, Target(st, r).value, n - 1, m - 1);
    }
  }

  /** A chain survives when every link on it is kept, removed, or replaced by one to an end. */
  lemma {:induction false} ChaseAfter(st: Store, st': Store, r: Ref, n: nat)
    requires WellFormed(st) && WellFormed(st') && Extends(st, st')
    requires Exists(st, r) && Chase(st, r, n).Some?
    requires forall q :: Exists(st, q) && Exists(st', q) && At(st', q).alias != At(st, q).alias ==>
               At(st', q).alias.None? || EndsNext(st', q)
    ensures Exists(st', r) && Chase(st', r, n + 1).Some?
    decreases n
  {
    hide WellFormed, Extends, AliasOk, Lookup;
    ExtendsAt(st, st', r);
    if At(st', r).alias.Some? {
      if At(st', r).alias == At(st, r).alias {
        TargetIsStable(st, st', r);
        ChaseAfter(st, st', Target(st, r).value, n - 1);
      } else {
        assert EndsNext(st', r);
      }
    }
  }

  /** The next entry on the chain is its end. */
  ghost predicate EndsNext(st: Store, r: Ref)
    requires Exists(st, r)
  {
    At(st, r).alias.Some? && Target(st, r).Some? && At(st, Target(st, r).value).alias.None?
  }

  lemma CreationKeepsAcyclic(st: Store, f: EnvId, parent: Option<EnvId>)
    requires WellFormed(st) && Acyclic(st) && MayCreate(st, f, parent)
    ensures Acyclic(st[f := EnvRec(parent, [])])
  {
    var st' := st[f := EnvRec(parent, [])];
    CreationKeeps(st, f, parent);
    hide WellFormed, Extends;
    KeptAcyclic(st, st');
  }

  /** Chains stay finite if every link is as it was, removed, or leads to an end. */
  lemma KeptAcyclic(st: Store, st': Store)
    requires WellFormed(st) && WellFormed(st') && Extends(st, st') && Acyclic(st)
    requires forall q :: Exists(st', q) ==>
               (Exists(st, q) && At(st', q).alias == At(st, q).alias) || At(st', q).alias.None? || EndsNext(st', q)
    ensures Acyclic(st')
  {
    hide WellFormed, Extends, EndsNext, Chase;
    forall q | Exists(st', q) ensures Resolves(st', q) {
      if Exists(st, q) {
        assert Resolves(st, q);
        var n: nat :| Chase(st, q, n).Some?;
        ChaseAfter(st, st', q, n);
        assert Chase(st', q, n + 1).Some?;
      } else {
        OneHopResolves(st', q);
      }
    }
  }

  lemma OneHopResolves(st: Store, q: Ref)
    requires Exists(st, q) && (At(st, q).alias.None? || EndsNext(st, q))
    ensures Resolves(st, q)
  {
    assert Chase(st, q, 1).Some?;
  }

  /** A change keeps chains finite unless it adds a link that does not lead to an end. */
  lemma ChangeKeepsAcyclic(st: Store, st': Store, c: Change)
    requires WellFormed(st) && Acyclic(st) && Makes(st, st', c)
    requires match c
             case Same => true
             case Changed(r, x) => Exists(st', r) && (x.alias.None? || x.alias == At(st, r).alias || EndsNext(st', r))
             case Added(e, y) => Exists(st', Ref(e, |st[e].entries|))
             && (y.alias.None? || EndsNext(st', Ref(e, |st[e].entries|)))
             case Created(_, _) => true
    ensures Acyclic(st')
  {
    match c
    case Same =>
    case Changed(r, x) =>
      SetEntryKeeps(st, r, x);
      KeptAcyclic(st, st');
    case Added(e, y) =>
      AddEntryKeeps(st, e, y);
      KeptAcyclic(st, st');
    case Created(f, parent) => CreationKeepsAcyclic(st, f, parent);
  }

  /** A walk of at least one hop that avoids `name` ends at an entry called something else. */
  lemma {:induction false} AvoidedName(st: Store, r: Ref, name: Name, fuel: nat)
    requires Exists(st, r) && ChaseAvoiding(st, r, name, fuel).Some?
    ensures ChaseAvoiding(st, r, name, fuel) == Some(r) ||
            At(st, ChaseAvoiding(st, r, name, fuel).value).name != name
    ensures Chase(st, r, fuel) == ChaseAvoiding(st, r, name, fuel)
    decreases fuel
  {
    if At(st, r).alias.Some? {
      AvoidedName(st, Target(st, r).value, name, fuel - 1);
    }
  }

  /** The target name leads straight back to the entry that is being set, and that entry is no alias yet. */
  predicate SelfAlias(st: Store, e: EnvId, name: Name, from: EnvId, target: Name) {
    var r := Lookup(st, from, target);
    r.Some? && r.value.env == e && At(st, r.value).name == name && At(st, r.value).alias.None?
  }

  lemma SelfAliasIsOwnEnd(st: Store, e: EnvId, name: Name, from: EnvId, target: Name)
    requires WellFormed(st) && e in st && AliasEnd(st, from, name, target).Some?
    ensures
      var end := AliasEnd(st, from, name, target).value;
      SelfAlias(st, e, name, from, target) <==> (end.env == e && FindLocal(st[e].entries, name) == Some(end.index))
  {
    var r := Lookup(st, from, target).value;
    AvoidedName(st, r, name, MaxHops);
    FindLocalUnique(st[r.env].entries, r.index);
    var end := AliasEnd(st, from, name, target).value;
    FindLocalUnique(st[end.env].entries, end.index);
  }

  /**
   * Setting an alias on a store without cycles gives a store without cycles exactly
   * when the target name does not lead straight back to the entry being set.
   */
  lemma AliasAcyclicIff(st: Store, e: EnvId, name: Name, from: EnvId, target: Name, t: DeclType, base: int,
      declare: bool)
    requires WellFormed(st) && Acyclic(st) && e in st
    requires SetAlias(st, e, name, from, target, t, base, declare).1
    ensures Acyclic(SetAlias(st, e, name, from, target, t, base, declare).0) <==> !SelfAlias(st, e, name, from, target)
  {
    var st' := SetAlias(st, e, name, from, target, t, base, declare).0;
    var end := AliasEnd(st, from, name, target).value;
    SelfAliasIsOwnEnd(st, e, name, from, target);
    var i := FindLocal(st[e].entries, name);
    FindLocalUnique(st[end.env].entries, end.index);
    var x := Ref(e, if i.Some? then i.value else |st[e].entries|);
    var made := Aliased(if i.Some? then st[e].entries[i.value] else NewEntry(name, t, base, Null), At(st, end),
        end.env);
    AliasedStore(st, st', e, i, made, end);
    if SelfAlias(st, e, name, from, target) {
      forall n: nat ensures Chase(st', x, n).None? {
        LoopNeverEnds(st', x, n);
      }
      assert !Resolves(st', x);
    } else {
      ChangeKeepsAcyclic(st, st', if i.Some? then Changed(x, made) else Added(e, made));
    }
  }

  /** The store after a successful set_alias: one link, from the entry to the end of the chain. */
  lemma AliasedStore(st: Store, st': Store, e: EnvId, i: Option<nat>, made: Entry, end: Ref)
    requires WellFormed(st) && e in st && Exists(st, end) && At(st, end).alias.None?
    requires i == FindLocal(st[e].entries, made.name)
    requires made.alias == Some(Alias(At(st, end).name, Some(end.env)))
    requires st' == if i.Some? then SetEntry(st, Ref(e, i.value), made) else AddEntry(st, e, made)
    ensures
      var x := Ref(e, if i.Some? then i.value else |st[e].entries|);
      && AliasOk(st, made) && WellFormed(st') && Exists(st', x) && At(st', x) == made
      && Target(st', x) == Some(end)
      && (end != x ==> EndsNext(st', x))
  {
    FindLocalUnique(st[end.env].entries, end.index);
    var x := Ref(e, if i.Some? then i.value else |st[e].entries|);
    if i.Some? {
      SetEntryKeeps(st, x, made);
    } else {
      AddEntryKeeps(st, e, made);
    }
    LinkIsStable(st, st', made);
  }

  lemma {:induction false} LoopNeverEnds(st: Store, x: Ref, n: nat)
    requires Exists(st, x) && At(st, x).alias.Some? && Target(st, x) == Some(x)
    ensures Chase(st, x, n).None?
    decreases n
  {
    if n > 0 {
      LoopNeverEnds(st, x, n - 1);
    }
  }

  /** Every other operation only removes links. */
  lemma OthersKeepAcyclic(matches: Matcher, st: Store, c: Call)
    requires WellFormed(st) && Acyclic(st) && !c.CallAlias?
    ensures Acyclic(Execute(matches, st, c).0)
  {
    var st' := Execute(matches, st, c).0;
    ExecuteMakes(matches, st, c);
    var d := ChangeOf(matches, st, c);
    hide WellFormed, Acyclic;
    match d
    case Same => ChangeKeepsAcyclic(st, st', d);
    case Changed(r, x) =>
      assert x.alias.None? || x.alias == At(st, r).alias;
      ChangeKeepsAcyclic(st, st', d);
    case Added(e, y) => ChangeKeepsAcyclic(st, st', d);
    case Created(_, _) =>
  }

  /** ... so chains stay finite over every sequence of operations and creations without a self alias. */
  lemma {:induction false} RunsKeepAcyclic(matches: Matcher, st: Store, deeds: seq<Deed>)
    requires StoreOk(st) && Acyclic(st) && forall i | 0 <= i < |deeds| :: DeedOk(deeds[i])
    requires forall i | 0 <= i < |deeds| && deeds[i].Direct? && deeds[i].call.CallAlias? ::
               (var c := deeds[i].call; !SelfAlias(ExecuteAll(matches, st, deeds[..i]), c.env, c.name, c.from,
                   c.target))
    ensures Acyclic(ExecuteAll(matches, st, deeds))
  {
    hide WellFormed, FlagsOk, TypesOk, Extends, Acyclic;
    if deeds != [] {
      var n := |deeds| - 1;
      var before := ExecuteAll(matches, st, deeds[..n]);
      var d := deeds[n];
      forall i | 0 <= i < n ensures deeds[..n][..i] == deeds[..i] {
      }
      RunsKeepAcyclic(matches, st, deeds[..n]);
      RunsKeep(matches, st, deeds[..n]);
      if d.Creation? {
        DeedMakes(matches, before, d);
        ChangeKeepsAcyclic(before, Perform(matches, before, d), ChangeBy(matches, before, d));
      } else if d.call.CallAlias? {
        AliasStep(matches, before, d.call);
      } else {
        OthersKeepAcyclic(matches, before, d.call);
      }
    }
  }

  lemma AliasStep(matches: Matcher, st: Store, c: Call)
    requires WellFormed(st) && Acyclic(st) && c.CallAlias?
    requires !SelfAlias(st, c.env, c.name, c.from, c.target)
    ensures Acyclic(Execute(matches, st, c).0)
  {
    if c.env in st && SetAlias(st, c.env, c.name, c.from, c.target, c.declType, c.base, c.declare).1 {
      AliasAcyclicIff(st, c.env, c.name, c.from, c.target, c.declType, c.base, c.declare);
    }
  }

  // ----- assignment and lookup -----

  /**
   * After a successful assignment the entry written holds the value, every other entry
   * is what it was, and looking the name up gives the value exactly when the alias
   * chain has at most one hop; behind a longer chain a lookup gives what it gave before.
   */
  lemma AssignThenGet(matches: Matcher, st: Store, e: EnvId, name: Name, v: Value, t: DeclType, base: int,
      declare: bool)
    requires WellFormed(st) && e in st && Lookup(st, e, name).Some?
    requires Assign(matches, st, e, name, v, t, base, declare).1
    ensures
      var st' := Assign(matches, st, e, name, v, t, base, declare).0;
      var w := WriteTarget(st, Lookup(st, e, name).value).value;
      && Exists(st', w) && At(st', w).value == v && At(st', w).initialized
      && (forall q :: Exists(st, q) && q != w ==> At(st', q) == At(st, q))
      && (At(st, w).alias.None? ==> Get(st', e, name) == Found(v, At(st, w).declType, At(st, w).declBase, true))
      && (At(st, w).alias.Some? ==> Get(st', e, name) == Get(st, e, name))
  {
    var st' := Assign(matches, st, e, name, v, t, base, declare).0;
    var r := Lookup(st, e, name).value;
    var w := WriteTarget(st, r).value;
    AssignWrites(matches, st, e, name, v, t, base, declare);
    hide WellFormed, Extends, NamesDistinct, AliasOk, Assign, MayAssign, SetEntry, Lookup, Chase, WriteTarget, Target,
         Get;
    SetEntryKeeps(st, w, At(st, w).(value := v, initialized := true));
    LookupStable(st, st', e, name);
    SameAliasesSameChase(st, st', r, MaxHops);
    OneHop(st, r);
    GetAfter(st, st', e, name, w);
  }

  /** After writing w a lookup finds w if the chain ends there, and else what it found before. */
  lemma GetAfter(st: Store, st': Store, e: EnvId, name: Name, w: Ref)
    requires e in st && e in st' && Lookup(st, e, name).Some? && Lookup(st', e, name) == Lookup(st, e, name)
    requires var r := Lookup(st, e, name).value; Chase(st', r, MaxHops) == Chase(st, r, MaxHops)
    requires Exists(st, w) && Exists(st', w) && forall q ::
             Exists(st, q) && q != w ==> Exists(st', q) && At(st', q) == At(st, q)
    ensures Chase(st, Lookup(st, e, name).value, MaxHops) == Some(w) ==>
              Get(st', e, name) ==
                  Found(At(st', w).value, At(st', w).declType, At(st', w).declBase, At(st', w).initialized)
    ensures Chase(st, Lookup(st, e, name).value, MaxHops) != Some(w) ==> Get(st', e, name) == Get(st, e, name)
  {
    hide Lookup, Chase;
  }

  /** A target without a link is where the chain from the looked up entry ends. */
  lemma OneHop(st: Store, r: Ref)
    requires Exists(st, r) && WriteTarget(st, r).Some? && Exists(st, WriteTarget(st, r).value)
    ensures At(st, WriteTarget(st, r).value).alias.None? ==> Chase(st, r, MaxHops) == Some(WriteTarget(st, r).value)
  {
    var w := WriteTarget(st, r).value;
    if At(st, w).alias.None? && At(st, r).alias.Some? {
      assert Chase(st, w, MaxHops - 1) == Some(w);
    }
  }

  lemma AssignWrites(matches: Matcher, st: Store, e: EnvId, name: Name, v: Value, t: DeclType, base: int, declare: bool)
    requires WellFormed(st) && e in st && Lookup(st, e, name).Some?
    requires Assign(matches, st, e, name, v, t, base, declare).1
    ensures WriteTarget(st, Lookup(st, e, name).value).Some?
    ensures
      var w := WriteTarget(st, Lookup(st, e, name).value).value;
      && AliasOk(st, At(st, w))
      && Assign(matches, st, e, name, v, t, base, declare).0 ==
          SetEntry(st, w, At(st, w).(value := v, initialized := true))
  {
  }

  /** Changing an entry's fields leaves every lookup where it was. */
  lemma {:induction false} LookupStable(st: Store, st': Store, e: EnvId, name: Name)
    requires WellFormed(st) && WellFormed(st') && Extends(st, st') && e in st
    requires forall q :: Exists(st', q) ==> Exists(st, q)
    ensures Lookup(st', e, name) == Lookup(st, e, name)
    decreases e
  {
    assert |st'[e].entries| == |st[e].entries| by {
      if |st'[e].entries| > |st[e].entries| {
        assert Exists(st', Ref(e, |st[e].entries|));
      }
    }
    forall i | 0 <= i < |st[e].entries| ensures st'[e].entries[i].name == st[e].entries[i].name {
      ExtendsAt(st, st', Ref(e, i));
    }
    SameNamesSameFind(st[e].entries, st'[e].entries, name);
    if FindLocal(st[e].entries, name).None? && st[e].parent.Some? {
      LookupStable(st, st', st[e].parent.value, name);
    }
  }

  lemma {:induction false} SameNamesSameFind(es: seq<Entry>, es': seq<Entry>, name: Name)
    requires |es| == |es'| && forall i | 0 <= i < |es| :: es'[i].name == es[i].name
    ensures FindLocal(es', name) == FindLocal(es, name)
  {
  }

  lemma {:induction false} SameAliasesSameChase(st: Store, st': Store, r: Ref, n: nat)
    requires WellFormed(st) && WellFormed(st') && Extends(st, st') && Exists(st, r)
    requires forall q :: Exists(st, q) && Exists(st', q) ==> At(st', q).alias == At(st, q).alias
    ensures Exists(st', r) && Chase(st', r, n) == Chase(st, r, n)
    decreases n
  {
    hide WellFormed, Extends, AliasOk, Target;
    ExtendsAt(st, st', r);
    if At(st, r).alias.Some? && n > 0 {
      TargetIsStable(st, st', r);
      SameAliasesSameChase(st, st', Target(st, r).value, n - 1);
    }
  }

  /** A declaring assignment to a new name is read back. */
  lemma DeclareThenGet(matches: Matcher, st: Store, e: EnvId, name: Name, v: Value, t: DeclType, base: int)
    requires WellFormed(st) && e in st && Lookup(st, e, name).None?
    requires Assign(matches, st, e, name, v, t, base, true).1
    ensures Get(Assign(matches, st, e, name, v, t, base, true).0, e, name) == Found(v, t, base, true)
  {
    var st' := Assign(matches, st, e, name, v, t, base, true).0;
    var x := NewEntry(name, t, base, Null).(value := v, initialized := true);
    var n := |st[e].entries|;
    assert st' == AddEntry(st, e, x) && FindLocal(st[e].entries, name).None?;
    AddEntryKeeps(st, e, x);
    assert st'[e].entries[n] == x && NamesDistinct(st'[e].entries);
    hide WellFormed, Extends, AliasOk, Assign, AddEntry;
    FindLocalUnique(st'[e].entries, n);
    assert Chase(st', Ref(e, n), MaxHops) == Some(Ref(e, n));
  }

  // ----- two runs from an empty environment -----

  function Int(n: int): Value {
    Value(TInt, 10, n)
  }

  const Empty: Store := map[0 := EnvRec(None, [])]

  /** a -> b and b -> c: an assignment to a succeeds, and a still reads as before. */
  function TwoHops(): seq<Deed> {
    [ Direct(CallAssign(0, "a", Int(1), TInt, 0, true)),
      Direct(CallAssign(0, "b", Int(2), TInt, 0, true)),
      Direct(CallAssign(0, "c", Int(3), TInt, 0, true)),
      Direct(CallAlias(0, "a", 0, "b", TUnknown, 0, false)),
      Direct(CallAlias(0, "b", 0, "c", TUnknown, 0, false)) ]
  }

  lemma One(matches: Matcher, st: Store, deeds: seq<Deed>, d: Deed)
    ensures ExecuteAll(matches, st, deeds + [d]) == Perform(matches, ExecuteAll(matches, st, deeds), d)
  {
    assert (deeds + [d])[..|deeds|] == deeds;
  }

  function Plain(name: Name, v: Value): Entry {
    Entry(name, TInt, 0, Null, v, true, false, false, None)
  }

  function Link(name: Name, target: Name): Entry {
    Entry(name, TInt, 0, Null, Null, true, false, false, Some(Alias(target, Some(0))))
  }

  function Table(es: seq<Entry>): Store {
    map[0 := EnvRec(None, es)]
  }

  lemma FindAmong(es: seq<Entry>, name: Name, i: nat)
    requires i < |es| && es[i].name == name && forall j | 0 <= j < i :: es[j].name != name
    ensures FindLocal(es, name) == Some(i)
    ensures Lookup(Table(es), 0, name) == Some(Ref(0, i))
  {
  }

  lemma SetInTable(es: seq<Entry>, i: nat, x: Entry)
    requires i < |es|
    ensures SetEntry(Table(es), Ref(0, i), x) == Table(es[i := x])
  {
  }

  lemma DeclareInTable(matches: Matcher, es: seq<Entry>, name: Name, n: int)
    requires forall j | 0 <= j < |es| :: es[j].name != name
    ensures Execute(matches, Table(es), CallAssign(0, name, Int(n), TInt, 0, true)).0 ==
            Table(es + [Plain(name, Int(n))])
  {
  }

  /** A store in which a successful assignment is not what the next lookup returns. */
  lemma StaleBehindTwoHops(matches: Matcher)
    ensures
      var st := ExecuteAll(matches, Empty, TwoHops());
      && 0 in st
      && Assign(matches, st, 0, "a", Int(9), TUnknown, 0, false).1
      && Get(Assign(matches, st, 0, "a", Int(9), TUnknown, 0, false).0, 0, "a") == Found(Int(3), TInt, 0, true)
  {
    var e1, e2, e3 := Plain("a", Int(1)), Plain("b", Int(2)), Plain("c", Int(3));
    var calls := TwoHops();
    assert [calls[0], calls[1], calls[2], calls[3], calls[4]] == calls;
    assert [] + [calls[0]] + [calls[1]] + [calls[2]] + [calls[3]] + [calls[4]] == calls;
    One(matches, Empty, [], calls[0]);
    DeclareInTable(matches, [], "a", 1);
    One(matches, Empty, [] + [calls[0]], calls[1]);
    DeclareInTable(matches, [e1], "b", 2);
    One(matches, Empty, [] + [calls[0]] + [calls[1]], calls[2]);
    DeclareInTable(matches, [e1, e2], "c", 3);
    var st3 := Table([e1, e2, e3]);
    assert [] + [e1] == [e1] && [e1] + [e2] == [e1, e2] && [e1, e2] + [e3] == [e1, e2, e3];
    assert ExecuteAll(matches, Empty, [] + [calls[0]] + [calls[1]] + [calls[2]]) == st3;
    One(matches, Empty, [] + [calls[0]] + [calls[1]] + [calls[2]], calls[3]);
    TwoLinks(matches, e1, e2, e3);
    One(matches, Empty, [] + [calls[0]] + [calls[1]] + [calls[2]] + [calls[3]], calls[4]);
    StaleInTable(matches);
  }

  lemma TwoLinks(matches: Matcher, e1: Entry, e2: Entry, e3: Entry)
    requires e1 == Plain("a", Int(1)) && e2 == Plain("b", Int(2)) && e3 == Plain("c", Int(3))
    ensures Execute(matches, Table([e1, e2, e3]), CallAlias(0, "a", 0, "b", TUnknown, 0, false)).0
            == Table([Link("a", "b"), e2, e3])
    ensures Execute(matches, Table([Link("a", "b"), e2, e3]), CallAlias(0, "b", 0, "c", TUnknown, 0, false)).0
            == Table([Link("a", "b"), Link("b", "c"), e3])
  {
    FindAmong([e1, e2, e3], "b", 1);
    FindAmong([e1, e2, e3], "a", 0);
    SetInTable([e1, e2, e3], 0, Link("a", "b"));
    assert [e1, e2, e3][0 := Link("a", "b")] == [Link("a", "b"), e2, e3];
    FindAmong([Link("a", "b"), e2, e3], "c", 2);
    FindAmong([Link("a", "b"), e2, e3], "b", 1);
    SetInTable([Link("a", "b"), e2, e3], 1, Link("b", "c"));
    assert [Link("a", "b"), e2, e3][1 := Link("b", "c")] == [Link("a", "b"), Link("b", "c"), e3];
  }

  lemma StaleInTable(matches: Matcher)
    ensures
      var st := Table([Link("a", "b"), Link("b", "c"), Plain("c", Int(3))]);
      && Assign(matches, st, 0, "a", Int(9), TUnknown, 0, false).1
      && Get(Assign(matches, st, 0, "a", Int(9), TUnknown, 0, false).0, 0, "a") == Found(Int(3), TInt, 0, true)
  {
    var es := [Link("a", "b"), Link("b", "c"), Plain("c", Int(3))];
    var es' := [Link("a", "b"), Link("b", "c").(value := Int(9)), Plain("c", Int(3))];
    FindAmong(es, "a", 0);
    FindAmong(es, "b", 1);
    SetInTable(es, 1, es'[1]);
    assert es[1 := es'[1]] == es';
    assert Assign(matches, Table(es), 0, "a", Int(9), TUnknown, 0, false) == (Table(es'), true);
    FindAmong(es', "a", 0);
    FindAmong(es', "b", 1);
    FindAmong(es', "c", 2);
    assert Chase(Table(es'), Ref(0, 2), 255) == Some(Ref(0, 2));
    assert Chase(Table(es'), Ref(0, 1), 256) == Some(Ref(0, 2));
    assert Chase(Table(es'), Ref(0, 0), 257) == Some(Ref(0, 2));
  }

  /** Setting a variable to an alias of itself succeeds, and leaves a name that cannot be read. */
  lemma SelfAliasSucceeds(matches: Matcher)
    ensures
      var st := Table([Plain("a", Int(1))]);
      && SetAlias(st, 0, "a", 0, "a", TUnknown, 0, false) == (Table([Link("a", "a")]), true)
      && Get(Table([Link("a", "a")]), 0, "a") == Missing
      && Get(st, 0, "a") == Found(Int(1), TInt, 0, true)
  {
    FindAmong([Plain("a", Int(1))], "a", 0);
    SetInTable([Plain("a", Int(1))], 0, Link("a", "a"));
    assert [Plain("a", Int(1))][0 := Link("a", "a")] == [Link("a", "a")];
    FindAmong([Link("a", "a")], "a", 0);
    LoopNeverEnds(Table([Link("a", "a")]), Ref(0, 0), MaxHops);
  }
}
