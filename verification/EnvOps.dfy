/** The direct operations of src/env.c as they run: loops over parents and over alias chains. */
module EnvOps {
  import opened Common
  import opened EnvModel
  import opened EnvLaws

  class Namespace {
    var envs: Store
    const matches: Matcher

    ghost predicate Valid()
      reads this
    {
      WellFormed(envs)
    }

    constructor (matches: Matcher)
      ensures Valid() && envs == map[] && this.matches == matches
    {
      this.matches := matches;
      envs := map[];
    }

    /** env_create: a new environment below an existing one. */
    method Create(parent: Option<EnvId>, e: EnvId)
      requires Valid() && MayCreate(envs, e, parent)
      modifies this`envs
      ensures Valid() && envs == Perform(matches, old(envs), Creation(e, parent))
      ensures e in envs && envs[e] == EnvRec(parent, []) && envs - {e} == old(envs)
    {
      CreationKeeps(envs, e, parent);
      envs := envs[e := EnvRec(parent, [])];
    }

    /** env_get_entry_raw_with_env: up the parents until one has the name. */
    method FindWithEnv(e: EnvId, name: Name) returns (r: Option<Ref>)
      requires Valid() && e in envs
      ensures r == Lookup(envs, e, name)
    {
      var cur := Some(e);
      while cur.Some?
        invariant cur.Some? ==> cur.value in envs && Lookup(envs, cur.value, name) == Lookup(envs, e, name)
        invariant cur.None? ==> Lookup(envs, e, name).None?
        decreases if cur.Some? then cur.value + 1 else 0
      {
        var i := FindLocal(envs[cur.value].entries, name);
        if i.Some? {
          return Some(Ref(cur.value, i.value));
        }
        cur := envs[cur.value].parent;
      }
      return None;
    }

    /** env_get_raw: the alias loop gives up when `depth` has passed 256. */
    method GetRaw(e: EnvId, name: Name) returns (a: Answer)
      requires Valid() && e in envs
      ensures a == Get(envs, e, name)
    {
      var found := FindWithEnv(e, name);
      if found.None? {
        return Missing;
      }
      var cur := found.value;
      var depth := 0;
      while At(envs, cur).alias.Some?
        invariant 0 <= depth <= MaxHops && Exists(envs, cur)
        invariant Chase(envs, cur, MaxHops - depth) == Chase(envs, found.value, MaxHops)
        decreases MaxHops - depth
      {
        if depth > 256 {
          return Missing;
        }
        depth := depth + 1;
        var next := Follow(cur);
        if next.None? {
          return Missing;
        }
        cur := next.value;
      }
      var x := At(envs, cur);
      return Found(x.value, x.declType, x.declBase, x.initialized);
    }

    /** One hop: the target name, looked up where the alias says. */
    method Follow(r: Ref) returns (t: Option<Ref>)
      requires Valid() && Exists(envs, r) && At(envs, r).alias.Some?
      ensures t == Target(envs, r)
    {
      var a := At(envs, r).alias.value;
      assert AliasOk(envs, At(envs, r));
      t := FindWithEnv(if a.env.Some? then a.env.value else r.env, a.target);
    }

    method DefineDirect(e: EnvId, name: Name, t: DeclType, base: int, schema: Value) returns (ok: bool)
      requires Valid() && e in envs
      modifies this`envs
      ensures Valid() && (envs, ok) == Define(old(envs), e, name, t, base, schema)
    {
      if FindLocal(envs[e].entries, name).Some? {
        return false;
      }
      AddEntryKeeps(envs, e, NewEntry(name, t, base, schema));
      envs := AddEntry(envs, e, NewEntry(name, t, base, schema));
      return true;
    }

    /** Writes an entry in place. */
    method Write(r: Ref, x: Entry)
      requires Valid() && Exists(envs, r) && x.name == At(envs, r).name && AliasOk(envs, x)
      modifies this`envs
      ensures Valid() && envs == SetEntry(old(envs), r, x)
    {
      SetEntryKeeps(envs, r, x);
      envs := SetEntry(envs, r, x);
    }

    /** The entry `name` of e itself, defined first if there is none. */
    method FindOrDefine(e: EnvId, name: Name, t: DeclType, base: int) returns (i: nat)
      requires Valid() && e in envs
      modifies this`envs
      ensures Valid() && e in envs
      ensures i == PlaceOf(old(envs)[e].entries, name)
      ensures envs == if FindLocal(old(envs)[e].entries, name).Some? then old(envs)
              else AddEntry(old(envs), e, NewEntry(name, t, base, Null))
      ensures Exists(envs, Ref(e, i)) && At(envs, Ref(e, i)).name == name
    {
      ghost var before := envs;
      var found := FindLocal(envs[e].entries, name);
      if found.None? {
        var defined := DefineDirect(e, name, t, base, Null);
        found := FindLocal(envs[e].entries, name);
        LastFound(before[e].entries, NewEntry(name, t, base, Null));
      }
      return found.value;
    }

    method AssignDirect(e: EnvId, name: Name, v: Value, t: DeclType, base: int, declare: bool) returns (ok: bool)
      requires Valid() && e in envs
      modifies this`envs
      ensures Valid() && (envs, ok) == Assign(matches, old(envs), e, name, v, t, base, declare)
    {
      var found := FindWithEnv(e, name);
      if found.Some? {
        var w := found;
        if At(envs, found.value).alias.Some? {
          w := Follow(found.value);
        }
        if w.None? || !MayAssign(matches, At(envs, w.value), v, t, base) {
          return false;
        }
        assert AliasOk(envs, At(envs, w.value));
        Write(w.value, At(envs, w.value).(value := v, initialized := true));
        return true;
      }
      if !declare || t == TUnknown || !Accepts(t, base, v) {
        return false;
      }
      ghost var before := envs;
      assert FindLocal(envs[e].entries, name).None?;
      hide WellFormed, Lookup, FindLocal, MayAssign;
      var i := FindOrDefine(e, name, t, base);
      var x := NewEntry(name, t, base, Null);
      OverwriteAdded(before, e, x, x.(value := v, initialized := true));
      Write(Ref(e, i), x.(value := v, initialized := true));
      return true;
    }

    method DeleteDirect(e: EnvId, name: Name) returns (ok: bool)
      requires Valid() && e in envs
      modifies this`envs
      ensures Valid() && (envs, ok) == Delete(old(envs), e, name)
    {
      var found := FindWithEnv(e, name);
      if found.None? || At(envs, found.value).frozen || At(envs, found.value).permafrozen {
        return false;
      }
      Write(found.value, At(envs, found.value).(schema := Null, value := Null, initialized := false, alias := None));
      return true;
    }

    /** The loop of env_set_alias_direct that resolves the chain and looks for the name on it. */
    method ResolveAvoiding(start: Ref, name: Name) returns (t: Option<Ref>)
      requires Valid() && Exists(envs, start)
      ensures t == ChaseAvoiding(envs, start, name, MaxHops)
    {
      var cur := start;
      var depth := 0;
      while At(envs, cur).alias.Some?
        invariant 0 <= depth <= MaxHops && Exists(envs, cur)
        invariant ChaseAvoiding(envs, cur, name, MaxHops - depth) == ChaseAvoiding(envs, start, name, MaxHops)
        decreases MaxHops - depth
      {
        if depth > 256 {
          return None;
        }
        depth := depth + 1;
        if At(envs, cur).alias.value.target == name {
          return None;
        }
        var next := Follow(cur);
        if next.None? {
          return None;
        }
        cur := next.value;
      }
      return Some(cur);
    }

    /** env_set_alias_cross, and env_set_alias_direct with from == e */
    method SetAliasCross(e: EnvId, name: Name, from: EnvId, target: Name, t: DeclType, base: int, declare: bool)
        returns (ok: bool)
      requires Valid() && e in envs && from in envs
      modifies this`envs
      ensures Valid() && (envs, ok) == SetAlias(old(envs), e, name, from, target, t, base, declare)
    {
      var first := FindWithEnv(from, target);
      if first.None? {
        return false;
      }
      var last := ResolveAvoiding(first.value, name);
      if last.None? {
        return false;
      }
      AliasEndExists(envs, from, name, target);
      var end := At(envs, last.value);
      if end.frozen || end.permafrozen || (t != TUnknown && !TypeEqual(t, base, end.declType, end.declBase)) {
        return false;
      }
      if FindLocal(envs[e].entries, name).None? && !declare {
        return false;
      }
      ok := LinkTo(e, name, last.value, end, t, base);
    }

    /** The end of set_alias: the entry becomes a link to `last`, which is what `end` was. */
    method LinkTo(e: EnvId, name: Name, last: Ref, end: Entry, t: DeclType, base: int) returns (ok: bool)
      requires Valid() && e in envs && Exists(envs, last) && At(envs, last) == end
      requires FindLocal(envs[last.env].entries, end.name).Some?
      modifies this`envs
      ensures Valid()
      ensures
        var i := FindLocal(old(envs)[e].entries, name);
        (envs, ok) ==
          if i.None? then (AddEntry(old(envs), e, Aliased(NewEntry(name, t, base, Null), end, last.env)), true)
          else if old(envs)[e].entries[i.value].frozen || old(envs)[e].entries[i.value].permafrozen
              then (old(envs), false)
          else (SetEntry(old(envs), Ref(e, i.value), Aliased(old(envs)[e].entries[i.value], end, last.env)), true)
    {
      ghost var before := envs;
      ExtendsRefl(envs);
      if FindLocal(envs[e].entries, name).None? {
        AddEntryKeeps(envs, e, NewEntry(name, t, base, Null));
      }
      var i := FindOrDefine(e, name, t, base);
      var x := At(envs, Ref(e, i));
      if x.frozen || x.permafrozen {
        return false;
      }
      AliasStaysOk(before, envs, Aliased(x, end, last.env));
      hide WellFormed, Extends, FindLocal;
      if FindLocal(before[e].entries, name).None? {
        OverwriteAdded(before, e, x, Aliased(x, end, last.env));
      }
      Write(Ref(e, i), Aliased(x, end, last.env));
      return true;
    }

    method RestoreLocalDirect(e: EnvId, name: Name, v: Value, t: DeclType, base: int, init: bool) returns (ok: bool)
      requires Valid() && e in envs
      modifies this`envs
      ensures Valid() && (envs, ok) == Restore(old(envs), e, name, v, t, base, init)
    {
      ghost var before := envs;
      hide WellFormed, FindLocal;
      var i := FindOrDefine(e, name, t, base);
      var x := At(envs, Ref(e, i));
      if x.frozen || x.permafrozen {
        return false;
      }
      if FindLocal(before[e].entries, name).None? {
        OverwriteAdded(before, e, x, Restored(x, v, t, base, init));
      }
      Write(Ref(e, i), Restored(x, v, t, base, init));
      return true;
    }

    method FreezeDirect(e: EnvId, name: Name) returns (code: int)
      requires Valid() && e in envs
      modifies this`envs
      ensures Valid() && (envs, code) == Freeze(old(envs), e, name)
    {
      var found := FindWithEnv(e, name);
      if found.None? {
        return -1;
      }
      assert AliasOk(envs, At(envs, found.value));
      Write(found.value, At(envs, found.value).(frozen := true));
      return 0;
    }

    method ThawDirect(e: EnvId, name: Name) returns (code: int)
      requires Valid() && e in envs
      modifies this`envs
      ensures Valid() && (envs, code) == Thaw(old(envs), e, name)
    {
      var found := FindWithEnv(e, name);
      if found.None? {
        return -1;
      }
      if At(envs, found.value).permafrozen {
        return -2;
      }
      assert AliasOk(envs, At(envs, found.value));
      Write(found.value, At(envs, found.value).(frozen := false));
      return 0;
    }

    method PermafreezeDirect(e: EnvId, name: Name) returns (code: int)
      requires Valid() && e in envs
      modifies this`envs
      ensures Valid() && (envs, code) == Permafreeze(old(envs), e, name)
    {
      var found := FindWithEnv(e, name);
      if found.None? {
        return -1;
      }
      assert AliasOk(envs, At(envs, found.value));
      Write(found.value, At(envs, found.value).(permafrozen := true, frozen := true));
      return 0;
    }
  }

  /** An entry just added under a new name is found at the end. */
  lemma LastFound(es: seq<Entry>, x: Entry)
    requires FindLocal(es, x.name).None?
    ensures FindLocal(es + [x], x.name) == Some(|es|)
  {
    assert (es + [x])[..|es|] == es;
  }

  /** Where `name` is in the entries, or will be once it is added. */
  function PlaceOf(es: seq<Entry>, name: Name): nat {
    var i := FindLocal(es, name);
    if i.Some? then i.value else |es|
  }

  lemma OverwriteAdded(st: Store, e: EnvId, x: Entry, y: Entry)
    requires e in st
    ensures Exists(AddEntry(st, e, x), Ref(e, |st[e].entries|)) && At(AddEntry(st, e, x), Ref(e, |st[e].entries|)) == x
    ensures SetEntry(AddEntry(st, e, x), Ref(e, |st[e].entries|), y) == AddEntry(st, e, y)
  {
    assert (st[e].entries + [x])[|st[e].entries| := y] == st[e].entries + [y];
  }
}
