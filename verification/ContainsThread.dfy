/**
 * The search for a thread inside a value (src/builtins.c:1790-1897): depth first over
 * a heap that may have cycles, visiting each tensor and each map once.
 */
module ContainsThread {
  import opened Common
  import opened Heap

  /** What a value holds directly: elements of a tensor, keys and values of a map. */
  function Children(h: Store, v: Val): seq<Val>
    requires Pointed(h, v)
  {
    match v
    case VTensor(Some(p)) => h[p].data
    case VMap(Some(p)) => KeysAndValues(h[p].items)
    case _ => []
  }

  function KeysAndValues(items: seq<Item>): (r: seq<Val>)
    ensures |r| == 2 * |items|
    ensures forall i | 0 <= i < |items| :: r[2 * i] == items[i].key && r[2 * i + 1] == items[i].value
  {
    if items == [] then [] else KeysAndValues(items[..|items| - 1]) + [items[|items| - 1].key, items[|items| - 1].value]
  }

  /** Each value on the path is held by the one before it. */
  ghost predicate Path(h: Store, path: seq<Val>) {
    && path != []
    && (forall i | 0 <= i < |path| :: Pointed(h, path[i]))
    && (forall i | 0 < i < |path| :: path[i] in Children(h, path[i - 1]))
  }

  /** The thread can be reached from the value. */
  ghost predicate Reaches(h: Store, v: Val, target: nat) {
    exists path :: Path(h, path) && path[0] == v && path[|path| - 1] == VThread(target)
  }

  lemma ChildrenPointed(h: Store, v: Val)
    requires HeapOk(h) && Pointed(h, v)
    ensures forall c | c in Children(h, v) :: Pointed(h, c)
  {
    if Pointer(v).Some? {
      var cell := h[Pointer(v).value];
      assert CellOk(h, cell);
      if cell.Map? {
        forall c | c in Children(h, v) ensures Pointed(h, c) {
          var k :| 0 <= k < 2 * |cell.items| && KeysAndValues(cell.items)[k] == c;
          assert c == cell.items[k / 2].key || c == cell.items[k / 2].value by {
            assert k == 2 * (k / 2) || k == 2 * (k / 2) + 1;
          }
        }
      }
    }
  }

  lemma ReachesThrough(h: Store, v: Val, c: Val, target: nat)
    requires Pointed(h, v) && c in Children(h, v) && Reaches(h, c, target)
    ensures Reaches(h, v, target)
  {
    var path :| Path(h, path) && path[0] == c && path[|path| - 1] == VThread(target);
    var longer := [v] + path;
    forall i | 0 < i < |longer| ensures longer[i] in Children(h, longer[i - 1]) {
      if i > 1 {
        assert path[i - 1] in Children(h, path[i - 2]);
      }
    }
    assert Path(h, longer);
  }

  // ----- a set of containers that keeps the thread out -----

  /** Not the thread itself, and already visited if a container. */
  predicate Clear(visited: set<Addr>, v: Val, target: nat) {
    v != VThread(target) && (Pointer(v).Some? ==> Pointer(v).value in visited)
  }

  function Handle(h: Store, p: Addr): (v: Val)
    requires p in h
    ensures Pointed(h, v) && Pointer(v) == Some(p)
  {
    if h[p].Tensor? then VTensor(Some(p)) else VMap(Some(p))
  }

  /** Everything the containers from place n on hold is clear. */
  ghost predicate Searched(h: Store, seen: seq<Addr>, n: nat, target: nat) {
    && (forall p | p in seen :: p in h)
    && forall i, c | n <= i < |seen| && c in Children(h, Handle(h, seen[i])) :: Clear(AsSet(seen), c, target)
  }

  function AsSet(seen: seq<Addr>): (r: set<Addr>)
    ensures forall p :: p in r <==> p in seen
  {
    set p | p in seen
  }

  lemma SearchedMore(h: Store, seen: seq<Addr>, seen': seq<Addr>, n: nat, target: nat)
    requires n <= |seen| && seen <= seen' && Searched(h, seen, n, target) && Searched(h, seen', |seen|, target)
    ensures Searched(h, seen', n, target)
  {
    forall i, c | n <= i < |seen'| && c in Children(h, Handle(h, seen'[i])) ensures Clear(AsSet(seen'), c, target) {
      if i < |seen| {
        assert Clear(AsSet(seen), c, target);
      }
    }
  }

  /** From a clear value no path leaves a searched set. */
  lemma {:induction false} NoPathOut(h: Store, seen: seq<Addr>, path: seq<Val>, target: nat)
    requires Searched(h, seen, 0, target) && Path(h, path) && Clear(AsSet(seen), path[0], target)
    ensures path[|path| - 1] != VThread(target)
  {
    if |path| > 1 {
      assert path[1] in Children(h, path[0]);
      assert Pointer(path[0]).Some?;
      var i :| 0 <= i < |seen| && seen[i] == Pointer(path[0]).value;
      assert Handle(h, seen[i]) == path[0];
      var rest := path[1..];
      forall k | 0 < k < |rest| ensures rest[k] in Children(h, rest[k - 1]) {
        assert path[k + 1] in Children(h, path[k]);
      }
      NoPathOut(h, seen, rest, target);
    }
  }

  // ----- the search -----

  class ThreadContainCtx {
    /** Visited maps and tensors, in the order of their first visit; no address is both. */
    var seen: seq<Addr>

    constructor ()
      ensures seen == []
    {
      seen := [];
    }

    /** thread_contain_seen_map and thread_contain_seen_tensor */
    method Seen(p: Addr) returns (found: bool)
      modifies this
      ensures found <==> p in old(seen)
      ensures seen == if found then old(seen) else old(seen) + [p]
    {
      var i := 0;
      while i < |seen|
        invariant i <= |seen| && seen == old(seen) && p !in seen[..i]
      {
        if seen[i] == p {
          return true;
        }
        i := i + 1;
      }
      assert seen == seen[..i];
      seen := seen + [p];
      return false;
    }
  }

  ghost function Unvisited(h: Store, seen: seq<Addr>): set<Addr> {
    h.Keys - AsSet(seen)
  }

  lemma UnvisitedShrinks(h: Store, seen: seq<Addr>, p: Addr, seen': seq<Addr>)
    requires p in h && p !in seen && seen + [p] <= seen'
    ensures Unvisited(h, seen') < Unvisited(h, seen)
  {
    assert seen'[|seen|] == p;
    assert p in Unvisited(h, seen) && p !in Unvisited(h, seen');
    forall q | q in seen ensures q in seen' {
      var i :| 0 <= i < |seen| && seen[i] == q;
      assert seen'[i] == q;
    }
  }

  /** The container is done once everything it holds is clear. */
  lemma SearchedFrom(h: Store, v: Val, begun: seq<Addr>, seen: seq<Addr>, target: nat)
    requires Pointed(h, v) && Pointer(v).Some? && begun + [Pointer(v).value] <= seen
    requires Searched(h, seen, |begun| + 1, target)
    requires forall c | c in Children(h, v) :: Clear(AsSet(seen), c, target)
    ensures Searched(h, seen, |begun|, target) && Clear(AsSet(seen), v, target)
  {
    assert seen[|begun|] == Pointer(v).value && Handle(h, seen[|begun|]) == v;
  }

  /** value_contains_thread_rec */
  method Search(h: Store, v: Val, ctx: ThreadContainCtx, target: nat) returns (found: bool)
    requires HeapOk(h) && Pointed(h, v) && forall p | p in ctx.seen :: p in h
    modifies ctx
    ensures old(ctx.seen) <= ctx.seen
    ensures found ==> Reaches(h, v, target)
    ensures !found ==> Searched(h, ctx.seen, |old(ctx.seen)|, target) && Clear(AsSet(ctx.seen), v, target)
    decreases Unvisited(h, ctx.seen), 1
  {
    match v {
      case VThread(th) =>
        if th == target {
          assert Path(h, [v]) && [v][0] == v;
        }
        return th == target;
      case VMap(Some(p)) =>
        var visited := ctx.Seen(p);
        if visited {
          return false;
        }
        UnvisitedShrinks(h, old(ctx.seen), p, ctx.seen);
        found := SearchMap(h, v, ctx, target);
        if !found {
          SearchedFrom(h, v, old(ctx.seen), ctx.seen, target);
        }
      case VTensor(Some(p)) =>
        var visited := ctx.Seen(p);
        if visited {
          return false;
        }
        UnvisitedShrinks(h, old(ctx.seen), p, ctx.seen);
        found := SearchTensor(h, v, ctx, target);
        if !found {
          SearchedFrom(h, v, old(ctx.seen), ctx.seen, target);
        }
      case _ =>
        return false;
    }
  }

  lemma UnvisitedMono(h: Store, seen: seq<Addr>, seen': seq<Addr>)
    requires seen <= seen'
    ensures Unvisited(h, seen') <= Unvisited(h, seen)
  {
    forall q | q in seen ensures q in seen' {
      var i :| 0 <= i < |seen| && seen[i] == q;
      assert seen'[i] == q;
    }
  }

  lemma ClearMore(seen: seq<Addr>, seen': seq<Addr>, vs: seq<Val>, target: nat)
    requires seen <= seen' && forall c | c in vs :: Clear(AsSet(seen), c, target)
    ensures forall c | c in vs :: Clear(AsSet(seen'), c, target)
  {
    forall q | q in seen ensures q in seen' {
      var i :| 0 <= i < |seen| && seen[i] == q;
      assert seen'[i] == q;
    }
  }

  /** The loop over the entries of a map: first the key, then the value. */
  method SearchMap(h: Store, v: Val, ctx: ThreadContainCtx, target: nat) returns (found: bool)
    requires HeapOk(h) && Pointed(h, v) && v.VMap? && v.m.Some? && forall p | p in ctx.seen :: p in h
    modifies ctx
    ensures old(ctx.seen) <= ctx.seen
    ensures found ==> Reaches(h, v, target)
    ensures !found ==> Searched(h, ctx.seen, |old(ctx.seen)|, target)
    ensures !found ==> forall c | c in Children(h, v) :: Clear(AsSet(ctx.seen), c, target)
    decreases Unvisited(h, ctx.seen), 2
  {
    hide Reaches, Clear, Path;
    var items := h[v.m.value].items;
    ghost var all := Children(h, v);
    ghost var begun := ctx.seen;
    ChildrenPointed(h, v);
    var i := 0;
    while i < |items|
      invariant i <= |items| && begun <= ctx.seen && Searched(h, ctx.seen, |begun|, target)
      invariant forall c | c in all[..2 * i] :: Clear(AsSet(ctx.seen), c, target)
    {
      assert all[2 * i] == items[i].key && all[2 * i + 1] == items[i].value;
      ghost var before := ctx.seen;
      UnvisitedMono(h, begun, before);
      found := Search(h, items[i].key, ctx, target);
      if found {
        ReachesThrough(h, v, items[i].key, target);
        return;
      }
      SearchedMore(h, before, ctx.seen, |begun|, target);
      ClearMore(before, ctx.seen, all[..2 * i], target);
      before := ctx.seen;
      UnvisitedMono(h, begun, before);
      found := Search(h, items[i].value, ctx, target);
      if found {
        ReachesThrough(h, v, items[i].value, target);
        return;
      }
      SearchedMore(h, before, ctx.seen, |begun|, target);
      assert all[..2 * (i + 1)] == all[..2 * i] + [items[i].key, items[i].value];
      ClearMore(before, ctx.seen, all[..2 * i] + [items[i].key], target);
      i := i + 1;
    }
    assert all[..2 * i] == all;
    return false;
  }

  /** The loop over the elements of a tensor. */
  method SearchTensor(h: Store, v: Val, ctx: ThreadContainCtx, target: nat) returns (found: bool)
    requires HeapOk(h) && Pointed(h, v) && v.VTensor? && v.t.Some? && forall p | p in ctx.seen :: p in h
    modifies ctx
    ensures old(ctx.seen) <= ctx.seen
    ensures found ==> Reaches(h, v, target)
    ensures !found ==> Searched(h, ctx.seen, |old(ctx.seen)|, target)
    ensures !found ==> forall c | c in Children(h, v) :: Clear(AsSet(ctx.seen), c, target)
    decreases Unvisited(h, ctx.seen), 2
  {
    var data := h[v.t.value].data;
    ghost var begun := ctx.seen;
    ChildrenPointed(h, v);
    var i := 0;
    while i < |data|
      invariant i <= |data| && begun <= ctx.seen && Searched(h, ctx.seen, |begun|, target)
      invariant forall c | c in data[..i] :: Clear(AsSet(ctx.seen), c, target)
    {
      ghost var before := ctx.seen;
      UnvisitedMono(h, begun, before);
      found := Search(h, data[i], ctx, target);
      if found {
        ReachesThrough(h, v, data[i], target);
        return;
      }
      SearchedMore(h, before, ctx.seen, |begun|, target);
      ClearMore(before, ctx.seen, data[..i], target);
      i := i + 1;
    }
    assert data[..i] == data;
    return false;
  }

  /** value_contains_thread finds the thread exactly when some path of containers leads to it. */
  method ValueContainsThread(h: Store, v: Val, target: nat) returns (found: bool)
    requires HeapOk(h) && Pointed(h, v)
    ensures found <==> Reaches(h, v, target)
  {
    var ctx := new ThreadContainCtx();
    found := Search(h, v, ctx, target);
    if !found {
      forall path | Path(h, path) && path[0] == v ensures path[|path| - 1] != VThread(target) {
        NoPathOut(h, ctx.seen, path, target);
      }
    }
  }
}
